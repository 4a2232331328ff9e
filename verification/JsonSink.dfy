/**
 * The sink as the program has it: fields updated in place around one append-only file
 * (src/sinks/json_sink.h, src/sinks/json_sink.cpp). Each method is tied to its function in SinkModel.
 */
module JsonSinks {
  import opened Primitives
  import opened JsonRecord
  import opened SinkModel
  import JsonPrinter

  class JsonSink {
    const maxFileSizeBytes: u64
    var isOpen: bool
    var currentFileSizeBytes: u64
    var pendingRecordsSinceFlush: nat
    var lastFlushMonoNs: u64
    var ready: bool
    ghost var file: string
    ghost var durable: nat
    ghost var base: string
    ghost var kept: seq<string>
    ghost var accepted: seq<string>
    ghost var untracked: nat

    /** The sink value this object and its file stand for. */
    ghost function State(): Sink
      reads this
    {
      Sink(maxFileSizeBytes, isOpen, ready, currentFileSizeBytes, pendingRecordsSinceFlush, lastFlushMonoNs,
           file, durable, base, kept, accepted, untracked)
    }

    constructor (limit: u64, env: OpenEnv, existingSize: u64, ghost original: string)
      requires existingSize == ToU64(|original|)
      ensures State() == Open(original, limit, env)
    {
      maxFileSizeBytes := limit;
      lastFlushMonoNs := env.nowNs;
      pendingRecordsSinceFlush := 0;
      currentFileSizeBytes := if env.sizeRead then existingSize else 0;
      isOpen := env.canOpen;
      ready := env.canOpen;
      file, durable, base, kept, accepted := original, |original|, original, [], [];
      untracked := if env.sizeRead then 0 else |original|;
    }

    method ForceFlush(nowNs: u64)
      modifies this
      ensures State() == SinkModel.ForceFlush(old(State()), nowNs)
    {
      if !isOpen {
        return;
      }
      durable := |file|;
      pendingRecordsSinceFlush := 0;
      lastFlushMonoNs := nowNs;
    }

    method MaybeFlush(nowNs: u64)
      modifies this
      ensures State() == SinkModel.MaybeFlush(old(State()), nowNs)
    {
      if !isOpen {
        return;
      }
      if pendingRecordsSinceFlush < FLUSH_EVERY_RECORDS && Sub64(nowNs, lastFlushMonoNs) < FLUSH_INTERVAL_NS {
        return;
      }
      durable := |file|;
      pendingRecordsSinceFlush := 0;
      lastFlushMonoNs := nowNs;
    }

    /** Start the file anew when the next record would exceed the limit; false if that fails. */
    method RotateIfNeeded(nextRecordBytes: nat, env: WriteEnv) returns (ok: bool)
      modifies this
      ensures State() == SinkModel.RotateIfNeeded(old(State()), nextRecordBytes, env)
      ensures ok == (MustRotate(old(State()), nextRecordBytes) ==> isOpen)
    {
      if maxFileSizeBytes == 0 {
        return true;
      }
      var nextSize := ToU64(currentFileSizeBytes + nextRecordBytes);
      if nextSize <= maxFileSizeBytes {
        return true;
      }
      ForceFlush(env.rotateNs);
      isOpen := false;
      if env.removed {
        Erase();
      }
      currentFileSizeBytes := 0;
      untracked := |file|;
      if !env.truncated {
        return false;
      }
      Erase();
      isOpen := env.reopened;
      return isOpen;
    }

    /** The file holds nothing any more. */
    ghost method Erase()
      modifies this`file, this`durable, this`base, this`kept, this`untracked
      ensures file == "" && durable == 0 && base == "" && kept == [] && untracked == 0
    {
      file, durable, base, kept, untracked := "", 0, "", [], 0;
    }

    method Write(c: CanonicalEvent, env: WriteEnv)
      requires c.raw.Some? ==> JsonPrinter.WellSized(c.raw.value)
      modifies this
      ensures State() == SinkModel.Write(old(State()), c, env)
    {
      hide Line, JsonPrinter.WellSized, MustRotate, SinkModel.RotateIfNeeded, SinkModel.MaybeFlush;
      if !ready {
        return;
      }
      if c.raw.None? {
        return;
      }
      var line := JsonPrinter.Serialize(c);
      var ok := RotateIfNeeded(|line|, env);
      if !ok {
        ready := false;
        return;
      }
      file, kept, accepted := file + line, kept + [line], accepted + [line];
      currentFileSizeBytes := ToU64(currentFileSizeBytes + |line|);
      pendingRecordsSinceFlush := pendingRecordsSinceFlush + 1;
      MaybeFlush(env.nowNs);
    }
  }
}
