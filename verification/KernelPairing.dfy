/** Which enter a submitted record belongs to, under any interleaving of tasks. */
module KernelPairing {
  import opened Primitives
  import opened EventSchema
  import opened KernelModel

  /** The observation ends whatever was pending under `key`. */
  predicate Clears(o: Obs, key: Key) { (o.Exited? || o.LruEvicted?) && o.key == key }

  predicate ClearedIn(trace: seq<Obs>, from: nat, to: nat, key: Key)
    requires from <= to <= |trace|
  {
    exists m :: from <= m < to && Clears(trace[m], key)
  }

  predicate EnteredIn(trace: seq<Obs>, from: nat, to: nat, key: Key)
    requires from <= to <= |trace|
  {
    exists m :: from <= m < to && trace[m].Entered? && trace[m].key == key
  }

  /** `trace[i]` stashed `p` under `key`. */
  predicate SavedAt(trace: seq<Obs>, i: nat, key: Key, p: Payload) {
    i < |trace| && trace[i] == Entered(key, p, Saved)
  }

  /** Later enters of the key found the slot taken, or got no further than the ring buffer. */
  predicate NoneStoredIn(trace: seq<Obs>, from: nat, to: nat, key: Key)
    requires from <= to <= |trace|
  {
    forall m :: from <= m < to && trace[m].Entered? && trace[m].key == key ==>
      !trace[m].enterFate.Saved? && !trace[m].enterFate.StoreFailed?
  }

  /** The pending entry of `key` at time `n` comes from the enter at `i`. */
  predicate OriginAt(trace: seq<Obs>, i: nat, n: nat, key: Key, p: Payload)
    requires n <= |trace|
  {
    i < n && SavedAt(trace, i, key, p) && !ClearedIn(trace, i + 1, n, key) && NoneStoredIn(trace, i + 1, n, key)
  }

  ghost predicate HasOrigin(trace: seq<Obs>, n: nat, key: Key, p: Payload)
    requires n <= |trace|
  {
    exists i: nat :: OriginAt(trace, i, n, key, p)
  }

  predicate Pends(k: Kernel, key: Key, p: Payload) { key in k.pending && k.pending[key] == p }

  /** Something stashed under `key` before time `n` is still pending then. */
  ghost predicate Outstanding(trace: seq<Obs>, n: nat, key: Key)
    requires n <= |trace|
  {
    exists p: Payload :: HasOrigin(trace, n, key, p)
  }

  /**
   * What is pending is what was saved and not cleared since: exactly the keys with a saved enter
   * and no exit or eviction after it, each with the payload of that enter.
   */
  ghost predicate PendingFits(k: Kernel) {
    forall key, p :: Pends(k, key, p) <==> HasOrigin(k.trace, |k.trace|, key, p)
  }

  /** The record submitted at `j` is the completion of the payload saved at `i`. */
  ghost predicate PairedAt(trace: seq<Obs>, i: nat, j: nat) {
    && i < j < |trace| && trace[i].Entered? && trace[j].Exited? && trace[j].exitFate.Submitted?
    && OriginAt(trace, i, j, trace[j].key, trace[i].payload)
    && trace[j].exitFate.rec == Finish(trace[j].key, trace[i].payload, trace[j].ret, trace[j].env)
  }

  ghost predicate AllPaired(trace: seq<Obs>) {
    forall j: nat :: j < |trace| && trace[j].Exited? && trace[j].exitFate.Submitted? ==> exists i: nat :: PairedAt(trace, i, j)
  }

  /** An exit is a miss exactly when nothing was pending for it. */
  ghost predicate MissesFit(trace: seq<Obs>) {
    forall j: nat :: j < |trace| && trace[j].Exited? ==>
      (trace[j].exitFate.Missed? <==> !Outstanding(trace, j, trace[j].key))
  }

  /** An enter collides exactly when it got a scratch record and an earlier one is still pending. */
  ghost predicate CollisionsFit(trace: seq<Obs>) {
    forall j: nat :: j < |trace| && trace[j].Entered? && !trace[j].enterFate.EnterNoRing? && !trace[j].enterFate.NoScratch? ==>
      (trace[j].enterFate.Collided? <==> Outstanding(trace, j, trace[j].key))
  }

  // ---- appending one observation ------------------------------------------

  lemma OriginIsStable(trace: seq<Obs>, o: Obs, i: nat, n: nat, key: Key, p: Payload)
    requires n <= |trace|
    ensures OriginAt(trace + [o], i, n, key, p) <==> OriginAt(trace, i, n, key, p)
  {
    var all := trace + [o];
    assert forall m :: 0 <= m < |trace| ==> all[m] == trace[m];
    if i < n {
      assert ClearedIn(all, i + 1, n, key) <==> ClearedIn(trace, i + 1, n, key) by {
        if ClearedIn(trace, i + 1, n, key) {
          var m :| i + 1 <= m < n && Clears(trace[m], key);
          assert Clears(all[m], key);
        }
      }
    }
  }

  /** How the origin of a key moves when one observation is appended. */
  lemma OriginSnoc(trace: seq<Obs>, o: Obs, i: nat, key: Key, p: Payload)
    ensures OriginAt(trace + [o], i, |trace| + 1, key, p) <==>
            (i < |trace| && OriginAt(trace, i, |trace|, key, p) && !Clears(o, key)
             && !(o.Entered? && o.key == key && (o.enterFate.Saved? || o.enterFate.StoreFailed?)))
            || (i == |trace| && o == Entered(key, p, Saved))
  {
    var all := trace + [o];
    assert all[|trace|] == o && forall m :: 0 <= m < |trace| ==> all[m] == trace[m];
    if i < |trace| {
      if ClearedIn(trace, i + 1, |trace|, key) {
        var m :| i + 1 <= m < |trace| && Clears(trace[m], key);
        assert Clears(all[m], key);
      }
      if Clears(o, key) { assert Clears(all[|trace|], key); }
      if ClearedIn(all, i + 1, |trace| + 1, key) {
        var m :| i + 1 <= m < |trace| + 1 && Clears(all[m], key);
        if m < |trace| { assert Clears(trace[m], key); }
      }
      if NoneStoredIn(all, i + 1, |trace| + 1, key) {
        forall m | i + 1 <= m < |trace| && trace[m].Entered? && trace[m].key == key
          ensures !trace[m].enterFate.Saved? && !trace[m].enterFate.StoreFailed?
        {
          assert all[m] == trace[m];
        }
      }
    }
  }

  lemma PairedIsStable(trace: seq<Obs>, o: Obs, i: nat, j: nat)
    requires i < |trace| && j < |trace|
    ensures PairedAt(trace + [o], i, j) <==> PairedAt(trace, i, j)
  {
    assert (trace + [o])[i] == trace[i] && (trace + [o])[j] == trace[j];
    if trace[i].Entered? && (trace[j].Entered? || trace[j].Exited? || trace[j].LruEvicted?) {
      OriginIsStable(trace, o, i, j, trace[j].key, trace[i].payload);
    }
  }

  ghost predicate History(k: Kernel) {
    PendingFits(k) && AllPaired(k.trace) && MissesFit(k.trace) && CollisionsFit(k.trace)
  }

  /** Earlier verdicts stand; only the appended observation has to be looked at. */
  lemma HistorySnoc(k: Kernel, o: Obs)
    requires History(k)
    requires o.Exited? ==>
               (o.exitFate.Missed? <==> o.key !in k.pending)
               && (o.exitFate.Submitted? ==>
                     o.key in k.pending && o.exitFate.rec == Finish(o.key, k.pending[o.key], o.ret, o.env))
    requires o.Entered? && !o.enterFate.EnterNoRing? && !o.enterFate.NoScratch? ==>
               (o.enterFate.Collided? <==> o.key in k.pending)
    ensures AllPaired(k.trace + [o]) && MissesFit(k.trace + [o]) && CollisionsFit(k.trace + [o])
  {
    hide Finish;
    var trace, all := k.trace, k.trace + [o];
    assert all[|trace|] == o && forall m :: 0 <= m < |trace| ==> all[m] == trace[m];
    forall n: nat, key | n <= |trace| ensures Outstanding(all, n, key) <==> Outstanding(trace, n, key) {
      OutstandingIsStable(trace, o, n, key);
    }
    forall j | 0 <= j < |all| && all[j].Exited? && all[j].exitFate.Submitted?
      ensures exists i: nat :: PairedAt(all, i, j)
    {
      if j < |trace| {
        var i: nat :| PairedAt(trace, i, j);
        PairedIsStable(trace, o, i, j);
        assert PairedAt(all, i, j);
      } else {
        var p := k.pending[o.key];
        assert Pends(k, o.key, p);
        var i: nat :| OriginAt(trace, i, |trace|, o.key, p);
        OriginIsStable(trace, o, i, j, o.key, p);
        assert PairedAt(all, i, j);
      }
    }
    if o.Entered? || o.Exited? { PendingIsOutstanding(k, o.key); }
    assert MissesFit(all);
    assert CollisionsFit(all);
  }

  lemma HasOriginIsStable(trace: seq<Obs>, o: Obs, n: nat, key: Key, p: Payload)
    requires n <= |trace|
    ensures HasOrigin(trace + [o], n, key, p) <==> HasOrigin(trace, n, key, p)
  {
    forall i: nat ensures OriginAt(trace + [o], i, n, key, p) <==> OriginAt(trace, i, n, key, p) {
      OriginIsStable(trace, o, i, n, key, p);
    }
  }

  lemma OutstandingIsStable(trace: seq<Obs>, o: Obs, n: nat, key: Key)
    requires n <= |trace|
    ensures Outstanding(trace + [o], n, key) <==> Outstanding(trace, n, key)
  {
    forall p: Payload ensures HasOrigin(trace + [o], n, key, p) <==> HasOrigin(trace, n, key, p) {
      HasOriginIsStable(trace, o, n, key, p);
    }
  }

  lemma PendingIsOutstanding(k: Kernel, key: Key)
    requires PendingFits(k)
    ensures key in k.pending <==> Outstanding(k.trace, |k.trace|, key)
  {
    if key in k.pending { assert Pends(k, key, k.pending[key]); }
    if Outstanding(k.trace, |k.trace|, key) {
      var p: Payload :| HasOrigin(k.trace, |k.trace|, key, p);
      assert Pends(k, key, p);
    }
  }

  // ---- one step -----------------------------------------------------------

  lemma EnterKeepsHistory(k: Kernel, key: Key, p: Payload, env: EnterEnv)
    requires History(k)
    ensures History(OnEnter(k, key, p, env))
  {
    hide AllPaired, MissesFit, CollisionsFit;
    var after := OnEnter(k, key, p, env);
    var o := Entered(key, p, FateOfEnter(k, key, env));
    HistorySnoc(k, o);
    forall x, q
      ensures Pends(after, x, q) <==> HasOrigin(after.trace, |after.trace|, x, q)
    {
      PendingAfterEnter(k, o, x, q);
    }
  }

  /** The origins after an enter, for one key and payload. */
  lemma PendingAfterEnter(k: Kernel, o: Obs, x: Key, q: Payload)
    requires PendingFits(k) && o.Entered?
    requires o.enterFate.Saved? || o.enterFate.StoreFailed? ==> o.key !in k.pending
    ensures HasOrigin(k.trace + [o], |k.trace| + 1, x, q)
            <==> if o.enterFate.Saved? && x == o.key then q == o.payload
                 else Pends(k, x, q)
  {
    var n := |k.trace|;
    if HasOrigin(k.trace + [o], n + 1, x, q) {
      var i: nat :| OriginAt(k.trace + [o], i, n + 1, x, q);
      OriginSnoc(k.trace, o, i, x, q);
      if i < n { assert HasOrigin(k.trace, n, x, q) && Pends(k, x, q); }
    }
    if o.enterFate.Saved? && x == o.key && q == o.payload {
      OriginSnoc(k.trace, o, n, x, q);
      assert OriginAt(k.trace + [o], n, n + 1, x, q);
    }
    if Pends(k, x, q) {
      var i: nat :| OriginAt(k.trace, i, n, x, q);
      OriginSnoc(k.trace, o, i, x, q);
      if !(o.enterFate.Saved? && x == o.key) { assert OriginAt(k.trace + [o], i, n + 1, x, q); }
    }
  }

  /** The origins after an exit or eviction, for one key and payload. */
  lemma PendingAfterClear(k: Kernel, o: Obs, x: Key, q: Payload)
    requires PendingFits(k) && !o.Entered?
    ensures HasOrigin(k.trace + [o], |k.trace| + 1, x, q)
            <==> Pends(k, x, q) && !Clears(o, x)
  {
    var n := |k.trace|;
    if HasOrigin(k.trace + [o], n + 1, x, q) {
      var i: nat :| OriginAt(k.trace + [o], i, n + 1, x, q);
      OriginSnoc(k.trace, o, i, x, q);
      if i < n { assert HasOrigin(k.trace, n, x, q) && Pends(k, x, q); }
    }
    if Pends(k, x, q) && !Clears(o, x) {
      var i: nat :| OriginAt(k.trace, i, n, x, q);
      OriginSnoc(k.trace, o, i, x, q);
      assert OriginAt(k.trace + [o], i, n + 1, x, q);
    }
  }

  lemma ExitKeepsHistory(k: Kernel, key: Key, ret: s64, env: ExitEnv)
    requires History(k)
    ensures History(OnExit(k, key, ret, env))
  {
    hide AllPaired, MissesFit, CollisionsFit, Finish, FdsAfterExit;
    var after := OnExit(k, key, ret, env);
    var o := Exited(key, ret, env, FateOfExit(k, key, ret, env));
    HistorySnoc(k, o);
    forall x, q
      ensures Pends(after, x, q) <==> HasOrigin(after.trace, |after.trace|, x, q)
    {
      PendingAfterClear(k, o, x, q);
    }
  }

  /** An observation that is neither an enter nor an exit. */
  lemma OtherKeepsHistory(k: Kernel, o: Obs, after: Kernel)
    requires History(k) && (o.LruEvicted? || o.ProcessSeen?)
    requires after.trace == k.trace + [o]
    requires after.pending == if o.LruEvicted? then k.pending - {o.key} else k.pending
    ensures History(after)
  {
    hide AllPaired, MissesFit, CollisionsFit;
    HistorySnoc(k, o);
    forall x, q
      ensures Pends(after, x, q) <==> HasOrigin(after.trace, |after.trace|, x, q)
    {
      PendingAfterClear(k, o, x, q);
    }
  }

  lemma NextKeepsHistory(g: Gates, k: Kernel, s: Step)
    requires History(k)
    ensures History(Next(g, k, s))
  {
    hide History, OnEnter, OnExit;
    match s
    case Enter(key, p, env) => EnterKeepsHistory(k, key, p, env);
    case Exit(key, ret, env) => ExitKeepsHistory(k, key, ret, env);
    case LruEvict(key) =>
      if key in k.pending { OtherKeepsHistory(k, LruEvicted(key), Next(g, k, s)); }
    case ProcessHit(ev, ring) =>
      if Next(g, k, s) != k { OtherKeepsHistory(k, ProcessSeen(ev, ring), Next(g, k, s)); }
  }

  /**
   * In every reachable state: a pending entry is the earliest stored enter since its key was last
   * cleared; every submitted record completes such an entry; an exit misses, and an enter
   * collides, exactly when the history says so. Any interleaving, any evictions and failures.
   */
  lemma {:induction false} RunKeepsHistory(g: Gates, steps: seq<Step>)
    ensures History(Run(g, steps))
    decreases |steps|
  {
    hide History, Next;
    if steps == [] { BootHasHistory(); } else {
      RunKeepsHistory(g, steps[..|steps| - 1]);
      NextKeepsHistory(g, Run(g, steps[..|steps| - 1]), steps[|steps| - 1]);
    }
  }

  lemma BootHasHistory()
    ensures History(BOOT)
  {}

  // ---- exact pairing, as the observations show it -------------------------

  /** `i` is the last observed enter of `key` before `j`. */
  predicate LastObserved(trace: seq<Obs>, i: nat, j: nat, key: Key)
    requires j <= |trace|
  {
    i < j && trace[i].Entered? && trace[i].key == key && !EnteredIn(trace, i + 1, j, key)
  }

  /** A submitted record completes the last enter observed before it exactly when that enter was saved. */
  lemma PairsWithLastObservedIff(g: Gates, steps: seq<Step>, i: nat, j: nat)
    requires var trace := Run(g, steps).trace;
             j < |trace| && trace[j].Exited? && trace[j].exitFate.Submitted? && LastObserved(trace, i, j, trace[j].key)
    ensures var trace := Run(g, steps).trace;
            && (PairedAt(trace, i, j) <==> trace[i].enterFate.Saved?)
            && ((exists e: nat :: PairedAt(trace, e, j) && !EnteredIn(trace, e + 1, j, trace[j].key))
                <==> trace[i].enterFate.Saved?)
  {
    hide Run, Finish;
    RunKeepsHistory(g, steps);
    var trace := Run(g, steps).trace;
    forall e: nat | PairedAt(trace, e, j)
      ensures e <= i && (trace[i].enterFate.Saved? ==> e == i)
      ensures !EnteredIn(trace, e + 1, j, trace[j].key) ==> e == i
    {
      assert trace[e].Entered? && trace[e].key == trace[j].key;
    }
    var e: nat :| PairedAt(trace, e, j);
  }

  /** Between two observed enters of one task and kind there is an exit of it. */
  ghost predicate EntersAlternate(trace: seq<Obs>) {
    forall a, b :: 0 <= a < b < |trace| && trace[a].Entered? && trace[b].Entered? && trace[a].key == trace[b].key ==>
      exists c :: a < c < b && trace[c].Exited? && trace[c].key == trace[a].key
  }

  /** Observed enters that alternate with exits never collide, and are the ones completed. */
  lemma PairingOfHistory(k: Kernel, j: nat)
    requires History(k) && EntersAlternate(k.trace) && j < |k.trace|
    ensures k.trace[j].Entered? ==> !k.trace[j].enterFate.Collided?
    ensures k.trace[j].Exited? && k.trace[j].exitFate.Submitted? ==>
              exists i: nat :: PairedAt(k.trace, i, j) && !EnteredIn(k.trace, i + 1, j, k.trace[j].key)
  {
    hide Finish;
    var trace := k.trace;
    forall a: nat, b: nat
      | a < b < |trace| && trace[a].Entered? && trace[b].Entered? && trace[a].key == trace[b].key
      ensures ClearedIn(trace, a + 1, b, trace[a].key)
    {
      var c :| a < c < b && trace[c].Exited? && trace[c].key == trace[a].key;
      assert Clears(trace[c], trace[a].key);
    }
    if trace[j].Entered? {
      assert !Outstanding(trace, j, trace[j].key);
    }
    if trace[j].Exited? && trace[j].exitFate.Submitted? {
      var i: nat :| PairedAt(trace, i, j);
      forall m | i + 1 <= m < j && trace[m].Entered? ensures trace[m].key != trace[j].key {
        assert !ClearedIn(trace, i + 1, m, trace[j].key);
      }
    }
  }

  // ---- exact pairing, as the calls were made ------------------------------

  /** The enter step `i` got past its gates and was saved. */
  ghost predicate SavesAt(g: Gates, steps: seq<Step>, i: nat)
    requires i < |steps|
  {
    steps[i].Enter? && GateOpen(g, steps[i].key) && FdGateOpen(Run(g, steps[..i]), steps[i].key, steps[i].payload)
    && FateOfEnter(Run(g, steps[..i]), steps[i].key, steps[i].enterEnv).Saved?
  }

  /** The exit step `j` submits a record. */
  ghost predicate SubmitsAt(g: Gates, steps: seq<Step>, j: nat)
    requires j < |steps|
  {
    steps[j].Exit? && GateOpen(g, steps[j].key) && steps[j].key in Run(g, steps[..j]).pending && steps[j].exitEnv.ring
  }

  predicate ClearsKey(s: Step, key: Key) { (s.Exit? || s.LruEvict?) && s.key == key }

  /** What is stashed under `key` at time `n` was stashed by step `i`. */
  ghost predicate StashedBy(g: Gates, steps: seq<Step>, i: nat, n: nat, key: Key)
    requires n <= |steps|
  {
    i < n && SavesAt(g, steps, i) && steps[i].Enter? && steps[i].key == key && forall m :: i < m < n ==> !ClearsKey(steps[m], key)
  }

  /** One step: a stash stays unless cleared, and only a saved enter makes one. */
  lemma NextPends(g: Gates, k: Kernel, s: Step, key: Key, p: Payload)
    requires key in k.pending ==> GateOpen(g, key)
    ensures Pends(Next(g, k, s), key, p) <==>
            || (Pends(k, key, p) && !ClearsKey(s, key))
            || (s.Enter? && s.key == key && s.payload == p && GateOpen(g, key) && FdGateOpen(k, key, p)
                && FateOfEnter(k, key, s.enterEnv).Saved?)
  {
    hide GateOpen, FdGateOpen, Finish, FdsAfterExit;
  }

  /** At every moment the stash of a key is that of one enter step, not cleared since. */
  lemma {:induction false} PendingIsStashed(g: Gates, steps: seq<Step>, n: nat, key: Key, p: Payload)
    requires n <= |steps|
    ensures Pends(Run(g, steps[..n]), key, p) <==> exists i: nat :: StashedBy(g, steps, i, n, key) && steps[i].payload == p
    ensures key in Run(g, steps[..n]).pending ==> GateOpen(g, key)
    decreases n
  {
    hide Next, GateOpen, FdGateOpen, FateOfEnter;
    if n > 0 {
      var k, s := Run(g, steps[..n - 1]), steps[n - 1];
      PendingIsStashed(g, steps, n - 1, key, p);
      assert steps[..n][..n - 1] == steps[..n - 1];
      assert Run(g, steps[..n]) == Next(g, k, s);
      NextPends(g, k, s, key, p);
      StashedSnoc(g, steps, n - 1, key, p);
      PendingGate(g, k, s, key);
    }
  }

  lemma PendingGate(g: Gates, k: Kernel, s: Step, key: Key)
    requires key in k.pending ==> GateOpen(g, key)
    ensures key in Next(g, k, s).pending ==> GateOpen(g, key)
  {
    hide GateOpen, FdGateOpen, Finish, FdsAfterExit;
  }

  lemma SavingIsEntering(g: Gates, steps: seq<Step>, i: nat)
    requires i < |steps|
    ensures SavesAt(g, steps, i) ==> steps[i].Enter?
  {}

  lemma StashedSnoc(g: Gates, steps: seq<Step>, n: nat, key: Key, p: Payload)
    requires n < |steps|
    ensures (exists i: nat :: StashedBy(g, steps, i, n + 1, key) && steps[i].payload == p) <==>
            || ((exists i: nat :: StashedBy(g, steps, i, n, key) && steps[i].payload == p) && !ClearsKey(steps[n], key))
            || (SavesAt(g, steps, n) && steps[n].key == key && steps[n].payload == p)
  {
    hide SavesAt, ClearsKey;
    if exists i: nat :: StashedBy(g, steps, i, n + 1, key) && steps[i].payload == p {
      var i: nat :| StashedBy(g, steps, i, n + 1, key) && steps[i].payload == p;
      assert i < n ==> StashedBy(g, steps, i, n, key);
    }
    if (exists i: nat :: StashedBy(g, steps, i, n, key) && steps[i].payload == p) && !ClearsKey(steps[n], key) {
      var i: nat :| StashedBy(g, steps, i, n, key) && steps[i].payload == p;
      assert StashedBy(g, steps, i, n + 1, key);
    }
    SavingIsEntering(g, steps, n);
    if SavesAt(g, steps, n) && steps[n].key == key {
      assert StashedBy(g, steps, n, n + 1, key);
    }
  }

  /** `i` is the last enter step of `key` before `j`, whether or not a gate let it through. */
  predicate LastEnter(steps: seq<Step>, i: nat, j: nat, key: Key)
    requires j <= |steps|
  {
    i < j && steps[i].Enter? && steps[i].key == key && forall m :: i < m < j ==> !(steps[m].Enter? && steps[m].key == key)
  }

  /** The record that an exit step submits, and the observation it leaves. */
  lemma SubmittedRecord(g: Gates, steps: seq<Step>, i: nat, j: nat)
    requires j < |steps| && SubmitsAt(g, steps, j) && StashedBy(g, steps, i, j, steps[j].key)
    ensures var s := steps[j];
            Run(g, steps[..j + 1]).trace == Run(g, steps[..j]).trace
              + [Exited(s.key, s.ret, s.exitEnv, Submitted(Finish(s.key, steps[i].payload, s.ret, s.exitEnv)))]
  {
    hide Finish, FdsAfterExit, GateOpen, FdGateOpen;
    PendingIsStashed(g, steps, j, steps[j].key, steps[i].payload);
    assert steps[..j + 1][..j] == steps[..j];
  }

  /** A submitted record completes its task's last call of that kind exactly when that call's enter was saved. */
  lemma PairsWithLastEnterIff(g: Gates, steps: seq<Step>, i: nat, j: nat)
    requires j < |steps| && SubmitsAt(g, steps, j) && LastEnter(steps, i, j, steps[j].key)
    ensures StashedBy(g, steps, i, j, steps[j].key) <==> SavesAt(g, steps, i)
  {
    hide Run, GateOpen, FdGateOpen;
    var key := steps[j].key;
    if SavesAt(g, steps, i) {
      var p := Run(g, steps[..j]).pending[key];
      PendingIsStashed(g, steps, j, key, p);
      var e: nat :| StashedBy(g, steps, e, j, key);
      if e < i {
        assert StashedBy(g, steps, e, i, key);
        PendingIsStashed(g, steps, i, key, steps[e].payload);
        assert false;
      }
    }
  }

  /** Between two calls of one task and kind there is an exit: what a task that makes one call at a time does. */
  ghost predicate CallsAlternate(steps: seq<Step>) {
    forall a, b :: 0 <= a < b < |steps| && steps[a].Enter? && steps[b].Enter? && steps[a].key == steps[b].key ==>
      exists c :: a < c < b && steps[c].Exit? && steps[c].key == steps[a].key
  }

  /**
   * If every task's enters and exits of one kind alternate, each submitted record completes the
   * last enter of its task and kind, calls dropped by a gate included, and nothing ever
   * collides, whatever evictions, update failures and reservation failures occur.
   */
  lemma ExactPairing(g: Gates, steps: seq<Step>, j: nat)
    requires CallsAlternate(steps) && j < |steps|
    ensures steps[j].Enter? ==> steps[j].key !in Run(g, steps[..j]).pending
    ensures SubmitsAt(g, steps, j) ==>
              exists i: nat :: LastEnter(steps, i, j, steps[j].key) && StashedBy(g, steps, i, j, steps[j].key)
  {
    hide Run, GateOpen, FdGateOpen, SavesAt, FateOfEnter;
    var key := if steps[j].Enter? || steps[j].Exit? then steps[j].key else FileKey(0, 0);
    if key in Run(g, steps[..j]).pending {
      var p := Run(g, steps[..j]).pending[key];
      PendingIsStashed(g, steps, j, key, p);
      var e: nat :| StashedBy(g, steps, e, j, key);
      forall m | e < m <= j && m < |steps| ensures !(steps[m].Enter? && steps[m].key == key) {
        assert forall c :: e < c < m ==> !ClearsKey(steps[c], key);
      }
      assert LastEnter(steps, e, j, key);
    }
  }

  /**
   * Without alternation the code keeps the first enter: two enters and an exit of one key, with
   * nothing failing, submit the completion of the first payload and count one collision.
   */
  lemma NestedEnterKeepsFirst(g: Gates, key: Key, first: Payload, second: Payload, ret: s64, env: ExitEnv)
    requires GateOpen(g, key) && !(key.NetworkKey? && key.kind in FD_GATED) && env.ring
    ensures var ok := EnterEnv(true, true, true);
            var trace := Run(g, [Enter(key, first, ok), Enter(key, second, ok), Exit(key, ret, env)]).trace;
            trace == [Entered(key, first, Saved), Entered(key, second, Collided),
                      Exited(key, ret, env, Submitted(Finish(key, first, ret, env)))]
  {
    hide Finish, FdsAfterExit, GateOpen;
    var ok := EnterEnv(true, true, true);
    var s1, s2, s3 := Enter(key, first, ok), Enter(key, second, ok), Exit(key, ret, env);
    assert [s1][..0] == [] && [s1, s2][..1] == [s1] && [s1, s2, s3][..2] == [s1, s2];
    assert Run(g, [s1]) == OnEnter(BOOT, key, first, ok);
    assert Run(g, [s1, s2]) == OnEnter(Run(g, [s1]), key, second, ok);
  }
}
