/** What every registry operation keeps: the two maps agree and the history tells identity. */
module RegistryInvariants {
  import opened Primitives
  import opened RegistryModel

  predicate Live(r: Registry, id: nat) { id in r.processes && !r.processes[id].exited }

  /** `id` is retained, not exited, and known under `key`. */
  predicate LiveAs(r: Registry, key: u32, id: nat) {
    Live(r, id) && EntityKey(r.processes[id]) == key
  }

  /** Entities carry the id they are stored under, ids are handed out in order, keys are real. */
  predicate WellNumbered(r: Registry) {
    r.nextId >= 1
    && forall id :: id in r.processes ==>
         1 <= id < r.nextId && r.processes[id].id == id && EntityKey(r.processes[id]) != 0
  }

  predicate Indexed(r: Registry, key: u32, id: nat) { key in r.tgidIndex && r.tgidIndex[key] == id }

  /** The index holds exactly the live entities, each under its own key. */
  ghost predicate IndexExact(r: Registry) {
    forall key: u32, id: nat :: Indexed(r, key, id) <==> LiveAs(r, key, id)
  }

  // ---- history ------------------------------------------------------------

  predicate Retires(n: Note, id: nat) { n == Exited(id) || n == Reused(id) || n == Evicted(id) }

  predicate RetiredIn(notes: seq<Note>, from: nat, to: nat, id: nat)
    requires from <= to <= |notes|
  {
    exists m :: from <= m < to && Retires(notes[m], id)
  }

  predicate EverRetired(notes: seq<Note>, id: nat) { RetiredIn(notes, 0, |notes|, id) }

  /** Ids in the history were handed out; a resolved id is live unless something retired it. */
  ghost predicate HistoryFits(r: Registry) {
    && (forall i :: 0 <= i < |r.notes| ==> 1 <= r.notes[i].id < r.nextId)
    && (forall id :: Live(r, id) ==> !EverRetired(r.notes, id))
    && (forall i :: 0 <= i < |r.notes| && r.notes[i].Resolved? && !EverRetired(r.notes, r.notes[i].id) ==>
          Live(r, r.notes[i].id))
    && (forall i :: 0 <= i < |r.notes| && r.notes[i].Resolved? && r.notes[i].id in r.processes ==>
          EntityKey(r.processes[r.notes[i].id]) == r.notes[i].key)
  }

  /** Two resolutions gave one id exactly when they name one key and nothing retired it between. */
  ghost predicate IdentityLaw(notes: seq<Note>) {
    forall i, j :: 0 <= i < j < |notes| && notes[i].Resolved? && notes[j].Resolved? ==>
      (notes[i].id == notes[j].id
       <==> notes[i].key == notes[j].key && !RetiredIn(notes, i + 1, j, notes[i].id))
  }

  /** An id is resolved only while it is live, so nothing retired it before. */
  ghost predicate ResolvedWhileLive(notes: seq<Note>) {
    forall i, m :: 0 <= m < i < |notes| && notes[i].Resolved? ==> !Retires(notes[m], notes[i].id)
  }

  ghost predicate Good(r: Registry) {
    WellNumbered(r) && IndexExact(r) && HistoryFits(r) && ResolvedWhileLive(r.notes) && IdentityLaw(r.notes)
  }

  lemma EmptyIsGood()
    ensures Good(EMPTY)
  {}

  // ---- history lemmas -----------------------------------------------------

  lemma RetiredInSnoc(notes: seq<Note>, n: Note, from: nat, to: nat, id: nat)
    requires from <= to <= |notes|
    ensures RetiredIn(notes + [n], from, to, id) <==> RetiredIn(notes, from, to, id)
    ensures RetiredIn(notes + [n], from, |notes| + 1, id)
            <==> RetiredIn(notes, from, |notes|, id) || Retires(n, id)
  {
    var all := notes + [n];
    forall m | 0 <= m < |notes| ensures all[m] == notes[m] {}
    if Retires(n, id) { assert Retires(all[|notes|], id); }
    if RetiredIn(notes, from, |notes|, id) {
      var m :| from <= m < |notes| && Retires(notes[m], id);
      assert Retires(all[m], id);
    }
    if RetiredIn(notes, from, to, id) {
      var m :| from <= m < to && Retires(notes[m], id);
      assert Retires(all[m], id);
    }
  }

  /** A note that is not a resolution cannot upset the identity law. */
  lemma LawSurvivesOtherNote(notes: seq<Note>, n: Note)
    requires IdentityLaw(notes) && !n.Resolved?
    ensures IdentityLaw(notes + [n])
  {
    var all := notes + [n];
    forall i, j | 0 <= i < j < |all| && all[i].Resolved? && all[j].Resolved?
      ensures all[i].id == all[j].id <==> all[i].key == all[j].key && !RetiredIn(all, i + 1, j, all[i].id)
    {
      RetiredInSnoc(notes, n, i + 1, j, all[i].id);
    }
  }

  /** Resolving a live entity, or one that has no history yet, keeps the identity law. */
  lemma LawSurvivesResolution(r: Registry, key: u32, id: nat)
    requires Good(r)
    requires LiveAs(r, key, id) || (id == r.nextId && key !in r.tgidIndex)
    ensures IdentityLaw(r.notes + [Resolved(key, id)])
  {
    var notes, n := r.notes, Resolved(key, id);
    var all := notes + [n];
    forall i, j | 0 <= i < j < |all| && all[i].Resolved? && all[j].Resolved?
      ensures all[i].id == all[j].id <==> all[i].key == all[j].key && !RetiredIn(all, i + 1, j, all[i].id)
    {
      RetiredInSnoc(notes, n, i + 1, j, all[i].id);
      if j == |notes| {
        var a, k := notes[i].id, notes[i].key;
        if !RetiredIn(notes, i + 1, j, a) && k == key {
          forall m | 0 <= m < |notes| ensures !Retires(notes[m], a) {
            if i < m { assert !RetiredIn(notes, i + 1, |notes|, a); }
          }
          assert !EverRetired(notes, a);
          assert Live(r, a);
          assert LiveAs(r, key, a);
          assert key in r.tgidIndex && r.tgidIndex[key] == a;
          if LiveAs(r, key, id) { assert r.tgidIndex[key] == id; }
        }
        if a == id {
          assert LiveAs(r, key, id);
          assert !EverRetired(notes, a);
        }
      }
    }
  }

  // ---- each elementary change keeps the invariant -------------------------

  lemma ReplaceKeepsGood(r: Registry, id: nat, e: ProcessEntity)
    requires Good(r) && id in r.processes && e.id == id
    requires EntityKey(e) == EntityKey(r.processes[id]) && e.exited == r.processes[id].exited
    ensures Good(WithEntity(r, id, e))
  {
    var after := WithEntity(r, id, e);
    forall key: u32, x: nat ensures LiveAs(after, key, x) <==> LiveAs(r, key, x) {}
    forall x: nat ensures Live(after, x) <==> Live(r, x) {}
  }

  lemma CheckedKeepsGood(r: Registry, id: nat)
    requires Good(r) && 1 <= id < r.nextId
    ensures Good(Noted(r, Checked(id)))
  {
    hide IdentityLaw;
    var n := Checked(id);
    LawSurvivesOtherNote(r.notes, n);
    forall x: nat ensures EverRetired(r.notes + [n], x) <==> EverRetired(r.notes, x) {
      RetiredInSnoc(r.notes, n, 0, 0, x);
    }
    KeysUnchanged(r, Noted(r, n));
  }

  /** `LiveAs` looks at the entities only. */
  lemma KeysUnchanged(r: Registry, after: Registry)
    requires IndexExact(r) && r.processes == after.processes && r.tgidIndex == after.tgidIndex
    ensures IndexExact(after)
  {
    forall key: u32, id: nat ensures LiveAs(after, key, id) <==> LiveAs(r, key, id) {}
  }

  lemma ResolvedKeepsGood(r: Registry, key: u32, id: nat)
    requires Good(r) && LiveAs(r, key, id)
    ensures Good(Noted(r, Resolved(key, id)))
  {
    hide IdentityLaw;
    var n := Resolved(key, id);
    var after := Noted(r, n);
    LawSurvivesResolution(r, key, id);
    forall x: nat ensures EverRetired(after.notes, x) <==> EverRetired(r.notes, x) {
      RetiredInSnoc(r.notes, n, 0, 0, x);
    }
    KeysUnchanged(r, after);
  }

  lemma MarkExitedKeepsGood(r: Registry, id: nat, nowNs: u64, exitCode: int, why: Note)
    requires Good(r) && Retires(why, id)
    ensures Good(MarkExited(r, id, nowNs, exitCode, why))
  {
    if id in r.processes {
      var after := MarkExited(r, id, nowNs, exitCode, why);
      forall key: u32, x: nat ensures LiveAs(after, key, x) <==> LiveAs(r, key, x) && x != id {}
      forall key: u32, x: nat
        ensures Indexed(after, key, x) <==> Indexed(r, key, x) && x != id
      {
        assert Indexed(r, key, id) <==> LiveAs(r, key, id);
      }
      RetireKeepsHistory(r, after, why, id);
    }
  }

  lemma EvictKeepsGood(r: Registry, victim: nat)
    requires Good(r)
    ensures Good(EvictIfNeeded(r, victim))
  {
    if |r.processes| > MAX_ENTRIES && victim in r.processes {
      var after := EvictIfNeeded(r, victim);
      assert r.processes[victim].id == victim;
      forall key: u32, x: nat ensures LiveAs(after, key, x) <==> LiveAs(r, key, x) && x != victim {}
      forall key: u32, x: nat
        ensures Indexed(after, key, x) <==> Indexed(r, key, x) && x != victim
      {
        assert Indexed(r, key, victim) <==> LiveAs(r, key, victim);
      }
      RetireKeepsHistory(r, after, Evicted(victim), victim);
    }
  }

  /** Retiring `id` and saying so in the history keeps the two in step. */
  lemma RetireKeepsHistory(r: Registry, after: Registry, n: Note, id: nat)
    requires Good(r) && Retires(n, id) && id in r.processes
    requires after.nextId == r.nextId && after.notes == r.notes + [n]
    requires forall x: nat :: Live(after, x) <==> Live(r, x) && x != id
    requires forall x: nat :: x in after.processes ==>
               x in r.processes && EntityKey(after.processes[x]) == EntityKey(r.processes[x])
    ensures HistoryFits(after) && ResolvedWhileLive(after.notes) && IdentityLaw(after.notes)
  {
    hide IdentityLaw;
    LawSurvivesOtherNote(r.notes, n);
    forall x: nat ensures EverRetired(after.notes, x) <==> EverRetired(r.notes, x) || x == id {
      RetiredInSnoc(r.notes, n, 0, 0, x);
    }
  }

  /** `after` is `r` with the entity `e` under its next id, indexed and noted. */
  predicate Adds(r: Registry, key: u32, e: ProcessEntity, after: Registry) {
    && key !in r.tgidIndex && key != 0 && e.id == r.nextId && EntityKey(e) == key && !e.exited
    && after == Registry(r.processes[r.nextId := e], r.tgidIndex[key := r.nextId], r.nextId + 1,
                         r.notes + [Resolved(key, r.nextId)])
  }

  lemma AddKeepsIndex(r: Registry, key: u32, e: ProcessEntity, after: Registry)
    requires WellNumbered(r) && IndexExact(r) && Adds(r, key, e, after)
    ensures WellNumbered(after) && IndexExact(after) && LiveAs(after, key, r.nextId)
    ensures forall x: nat :: Live(after, x) <==> Live(r, x) || x == r.nextId
  {
    var id := r.nextId;
    forall k: u32, x: nat
      ensures LiveAs(after, k, x) <==> LiveAs(r, k, x) || (k == key && x == id) {}
    forall k: u32, x: nat
      ensures Indexed(after, k, x) <==> Indexed(r, k, x) || (k == key && x == id) {
      assert Indexed(r, k, id) <==> LiveAs(r, k, id);
    }
  }

  lemma AddKeepsHistory(r: Registry, key: u32, e: ProcessEntity, after: Registry)
    requires WellNumbered(r) && HistoryFits(r) && ResolvedWhileLive(r.notes) && Adds(r, key, e, after)
    requires forall x: nat :: Live(after, x) <==> Live(r, x) || x == r.nextId
    ensures HistoryFits(after) && ResolvedWhileLive(after.notes)
  {
    hide Live, EntityKey;
    var id, n := r.nextId, Resolved(key, r.nextId);
    forall x: nat ensures EverRetired(after.notes, x) <==> EverRetired(r.notes, x) {
      RetiredInSnoc(r.notes, n, 0, 0, x);
    }
    assert !EverRetired(r.notes, id);
  }

  lemma AddKeepsGood(r: Registry, key: u32, e: ProcessEntity, after: Registry)
    requires Good(r) && Adds(r, key, e, after)
    ensures Good(after) && LiveAs(after, key, r.nextId)
  {
    hide IdentityLaw, HistoryFits, ResolvedWhileLive, IndexExact, WellNumbered;
    AddKeepsIndex(r, key, e, after);
    AddKeepsHistory(r, key, e, after);
    LawSurvivesResolution(r, key, r.nextId);
  }

  lemma InsertKeepsGood(r: Registry, key: u32, a: Actor, nowNs: u64, t: ProcFacts)
    requires Good(r) && key !in r.tgidIndex && key == ActorKey(a) != 0
    ensures Good(Insert(r, key, a, nowNs, t))
    ensures LiveAs(Insert(r, key, a, nowNs, t), key, r.nextId)
  {
    AddKeepsGood(r, key, NewEntity(r.nextId, key, a, nowNs, t), Insert(r, key, a, nowNs, t));
  }

  // ---- composite operations -----------------------------------------------

  lemma AfterCheckKeepsGood(r: Registry, id: nat, nowNs: u64)
    requires Good(r) && id in r.processes
    ensures Good(AfterCheck(r, id, nowNs))
    ensures forall key: u32, x: nat :: LiveAs(AfterCheck(r, id, nowNs), key, x) <==> LiveAs(r, key, x)
  {
    var e := r.processes[id].(lastIdentityCheckNs := nowNs);
    ReplaceKeepsGood(r, id, e);
    CheckedKeepsGood(WithEntity(r, id, e), id);
  }

  lemma TouchKeepsGood(r: Registry, key: u32, a: Actor, nowNs: u64, refresh: bool, t: ProcFacts)
    requires Good(r) && key == ActorKey(a) != 0
    requires key in r.tgidIndex && r.tgidIndex[key] in r.processes
    ensures Good(Touch(r, key, a, nowNs, refresh, t))
    ensures LiveAs(Touch(r, key, a, nowNs, refresh, t), key, r.tgidIndex[key])
  {
    var id := r.tgidIndex[key];
    assert LiveAs(r, key, id);
    AfterCheckKeepsGood(r, id, nowNs);
    var checked := AfterCheck(r, id, nowNs);
    var fast := UpdateFast(checked.processes[id], a, nowNs);
    var e := if refresh then RefreshRich(fast, key, t) else fast;
    assert LiveAs(checked, key, id);
    ReplaceKeepsGood(checked, id, e);
    ResolvedKeepsGood(WithEntity(checked, id, e), key, id);
  }

  lemma ClearedKeepsGood(r: Registry, key: u32, nowNs: u64)
    requires Good(r)
    ensures Good(Cleared(r, key, nowNs)) && key !in Cleared(r, key, nowNs).tgidIndex
  {
    if key in r.tgidIndex {
      var id := r.tgidIndex[key];
      assert LiveAs(r, key, id);
      AfterCheckKeepsGood(r, id, nowNs);
      MarkExitedKeepsGood(AfterCheck(r, id, nowNs), id, nowNs, 0, Reused(id));
    }
  }

  lemma ResolveKeepsGood(r: Registry, a: Actor, nowNs: u64, refresh: bool, view: ProcView, victim: nat)
    requires Good(r)
    ensures Good(ResolveProcess(r, a, nowNs, refresh, view, victim).0)
  {
    var key := ActorKey(a);
    if key != 0 {
      if Hits(r, key, nowNs, view) {
        TouchKeepsGood(r, key, a, nowNs, refresh, view.refresh);
      } else {
        ClearedKeepsGood(r, key, nowNs);
        InsertKeepsGood(Cleared(r, key, nowNs), key, a, nowNs, view.refresh);
        EvictKeepsGood(Insert(Cleared(r, key, nowNs), key, a, nowNs, view.refresh), victim);
      }
    }
  }

  lemma AfterActionKeepsGood(r: Registry, s: Step)
    requires Good(r)
    ensures Good(AfterAction(r, s).0)
  {
    var (r1, subject) := ResolveSubject(r, s);
    ResolveKeepsGood(r, s.ev.actor, s.ev.tsNs, s.ev.action.ProcessExeced?, s.subjectView, s.subjectVictim);
    if s.ev.action.ProcessExited? {
      MarkExitedKeepsGood(r1, subject, s.ev.tsNs, s.ev.outcome, Exited(subject));
    } else if StartsChild(s.ev) {
      var child := ChildActor(s.ev.childPid, s.ev.actor);
      ResolveKeepsGood(r1, child, s.ev.tsNs, true, s.childView, s.childVictim);
      var (r2, id) := ResolveProcess(r1, child, s.ev.tsNs, true, s.childView, s.childVictim);
      if id in r2.processes && r2.processes[id].parentId == 0 {
        ReplaceKeepsGood(r2, id, r2.processes[id].(parentId := subject));
      }
    }
  }

  /** Whatever the event, the `/proc` texts and the scan order: the invariant survives `Ingest`. */
  lemma IngestKeepsGood(r: Registry, s: Step)
    requires Good(r)
    ensures Good(Ingest(r, s).0)
  {
    AfterActionKeepsGood(r, s);
    var r2, subject := AfterAction(r, s).0, ResolveSubject(r, s).1;
    if subject in r2.processes {
      ReplaceKeepsGood(r2, subject, r2.processes[subject].(execPath := s.ev.execPathHint));
    }
  }
}
