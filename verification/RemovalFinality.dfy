/** A removal that answers success is final. The removal of both tiers does not wait when it
    meets an entry that another removal has hidden; it then answers success only if the disk
    had the key, and the disk never has a key whose flush is still to be written. */
module RemovalFinality {
  import opened Types
  import Lifecycle
  import opened RamTier
  import opened RamOwnership
  import opened RemoveFence

  // ------------------------------------------------------------ unwritten is not on disk

  /** A value about to be written back, or queued for it. */
  predicate Unsaved(s: Tier, k: BlockKey) {
    || (k in s.writing && s.writing[k] in s.admissions && s.admissions[s.writing[k]].kind == WriteBack)
    || (k in s.index && !s.index[k].durable && !s.index[k].hidden && !s.index[k].flushing)
  }

  predicate Unwritten(s: Tier, k: BlockKey, o: nat) {
    o in s.flushes && s.flushes[o].key == k && !s.flushes[o].written
  }

  /** The disk does not have `k` while the tier has yet to write it. */
  ghost predicate Dry(s: Tier, k: BlockKey) {
    k in s.disk ==> !Unsaved(s, k) && forall o :: !Unwritten(s, k, o)
  }

  /** Nothing new is to be written for `k`. */
  ghost predicate NoMore(s: Tier, u: Tier, k: BlockKey) {
    && (k in u.disk ==> k in s.disk)
    && (Unsaved(u, k) ==> Unsaved(s, k))
    && forall o :: Unwritten(u, k, o) ==> Unwritten(s, k, o)
  }

  /** An entry does not become unsaved again. */
  predicate Settling(m: map<BlockKey, Entry>, n: map<BlockKey, Entry>, k: BlockKey) {
    k in n ==>
      k in m && (m[k].durable ==> n[k].durable) && (m[k].hidden ==> n[k].hidden) && (m[k].flushing ==> n[k].flushing)
  }

  lemma {:induction false} SameSettling(s: Tier, u: Tier, k: BlockKey)
    requires SameParties(s, u) && Settling(s.index, u.index, k)
    ensures NoMore(s, u, k)
  {
  }

  lemma {:induction false} StaysDry(s: Tier, u: Tier, k: BlockKey)
    requires Dry(s, k) && NoMore(s, u, k)
    ensures Dry(u, k)
  {
    forall o | k in u.disk ensures !Unwritten(u, k, o) { assert !Unwritten(s, k, o); }
  }

  lemma {:induction false} SettledSettling(s: Tier, j: BlockKey, e: Entry, arena: Lifecycle.View, k: BlockKey)
    requires j in s.index && (s.index[j].durable ==> e.durable) && (s.index[j].hidden ==> e.hidden)
      && (s.index[j].flushing ==> e.flushing)
    ensures Settling(s.index, Settled(s, j, e, arena).index, k)
  {
  }

  lemma {:induction false} HideSettling(s: Tier, j: BlockKey, k: BlockKey)
    requires j in s.index
    ensures Settling(s.index, Hide(s, j).index, k)
  {
    var e := s.index[j];
    SettledSettling(s, j, e.(hidden := true, flushPin := e.flushPin && e.flushing), UnpinnedFor(s, j, e, !e.flushing
      && e.flushPin), k);
  }

  lemma {:induction false} Remove1Dry(s: Tier, r: nat, j: BlockKey, k: BlockKey)
    ensures NoMore(s, AfterRemove1(s, r, j), k)
  {
    var u := AfterRemove1(s, r, j);
    Remove1Parties(s, r, j);
    if j in s.index { HideSettling(s, j, k); }
    assert u.index == s.index || (j in s.index && u.index == Hide(s, j).index);
    SameSettling(s, u.(removers := s.removers), k);
  }

  lemma {:induction false} Remove2Dry(s: Tier, r: nat, k: BlockKey)
    requires r in s.removers
    ensures NoMore(s, AfterRemove2(s, r), k)
  {
    var u, j := AfterRemove2(s, r), s.removers[r].key;
    Remove2Parties(s, r);
    if j in s.index {
      HideSettling(s, j, k);
      SettledSettling(s, j, s.index[j], s.arena, k);
    }
    assert u.index == s.index
      || (j in s.index && (u.index == Settled(s, j, s.index[j], s.arena).index || u.index == Hide(s, j).index));
    SameSettling(s, u.(removers := s.removers), k);
  }

  lemma {:induction false} UnsentDry(s: Tier, u: Tier, j: BlockKey, k: BlockKey)
    requires j in s.index && s.index[j].sendPins > 0
    requires u == Unsent(s, j).(tokens := u.tokens, admissions := u.admissions)
    requires forall c :: c in u.admissions ==> c in s.admissions && u.admissions[c] == s.admissions[c]
    ensures NoMore(s, u, k)
  {
    assert Settling(s.index, u.index, k);
  }

  lemma {:induction false} PublishedDry(s: Tier, c: nat, k: BlockKey)
    requires Inv(s) && Enabled(s, Publish(c))
    ensures NoMore(s, Published(s, c), k)
  {
    assert AdmissionOk(s, c) && SlotOk(s, s.admissions[c].key) && SlotOk(s, k);
  }

  lemma {:induction false} UndoneDry(s: Tier, c: nat, k: BlockKey)
    requires c in s.admissions
    ensures NoMore(s, Concealed(s, c), k) && NoMore(s, Withdrawn(s, c), k)
  {
  }

  lemma {:induction false} PublishDry(s: Tier, c: nat, k: BlockKey)
    requires Inv(s) && Enabled(s, Publish(c))
    ensures NoMore(s, AfterPublish(s, c), k)
  {
    PublishedDry(s, c, k);
    UndoneDry(s, c, k);
  }

  lemma {:induction false} DequeueDry(s: Tier, o: nat, k: BlockKey)
    requires Inv(s) && Enabled(s, Dequeue(o)) && Dry(s, k)
    ensures Dry(AfterDequeue(s, o), k)
  {
    var u, q := AfterDequeue(s, o), s.queue[0];
    assert HoldersOk(s, q.key) && Queued(s.queue, q.key) > 0;
    forall x | k in u.disk ensures !Unwritten(u, k, x) { assert !Unwritten(s, k, x); }
  }

  lemma {:induction false} OnlyFlush(s: Tier, o: nat, x: nat)
    requires Inv(s) && o in s.flushes && x in s.flushes && s.flushes[x].key == s.flushes[o].key
    ensures x == o
  {
    var k := s.flushes[o].key;
    Owned(s, o);
    if x != o { Counted(s.flushes - {o}, FlushOn(k), x); }
  }

  lemma {:induction false} FlushWriteDry(s: Tier, o: nat, k: BlockKey)
    requires Inv(s) && o in s.flushes && Dry(s, k)
    ensures Dry(AfterFlushWrite(s, o), k)
  {
    var u := AfterFlushWrite(s, o);
    Owned(s, o);
    if s.flushes[o].key == k {
      assert EntryOk(s, k);
      forall x ensures !Unwritten(u, k, x) {
        if x in s.flushes && s.flushes[x].key == k { OnlyFlush(s, o, x); }
      }
    } else {
      StaysDry(s, u, k);
    }
  }

  lemma {:induction false} FlushDoneDry(s: Tier, o: nat, ok: bool, k: BlockKey)
    requires Inv(s) && Enabled(s, FlushDone(o, ok)) && Dry(s, k)
    ensures Dry(AfterFlush(s, o, ok), k)
  {
    var u, j := AfterFlush(s, o, ok), s.flushes[o].key;
    Owned(s, o);
    FlushSame(s, j, s.flushes[o].tries + 1, ok, k, 0);
    forall x | k in u.disk ensures !Unwritten(u, k, x) { assert !Unwritten(s, k, x); }
    if j != k {
      FlushElsewhere(s, o, ok, k);
    } else if s.index[k].hidden {
      assert u.index == FlushRetire(s, k).index;
    } else if ok {
      assert u.index == FlushCommit(s, k).index;
    } else {
      assert Unwritten(s, k, o);
    }
  }

  lemma {:induction false} ClaimDry(s: Tier, step: Step, k: BlockKey)
    requires Inv(s) && step.Claim? && Enabled(s, step) && Dry(s, k)
    ensures Dry(Apply(s, step), k)
  {
    assert SlotOk(s, k);
    var u := Apply(s, step);
    forall o | k in u.disk ensures !Unwritten(u, k, o) { assert !Unwritten(s, k, o); }
  }

  /** The later steps of an admission but its publication. */
  lemma {:induction false} AdmissionDry(s: Tier, step: Step, k: BlockKey)
    requires Inv(s) && Admits(step) && !step.Claim? && !step.Publish? && Enabled(s, step)
    ensures NoMore(s, Apply(s, step), k)
  {
    assert AdmissionOk(s, step.c) && SlotOk(s, k);
  }

  lemma {:induction false} DirectDry(s: Tier, j: BlockKey, k: BlockKey)
    requires Inv(s) && DirectAllowed(s, j) && Dry(s, k)
    ensures Dry(s.(disk := s.disk + {j}), k)
  {
    var u := s.(disk := s.disk + {j});
    forall o | k in u.disk ensures !Unwritten(u, k, o) {
      if j == k { assert FlushOk(s, o) && EntryOk(s, k); } else { assert !Unwritten(s, k, o); }
    }
  }

  /** A step that puts nothing on disk and leaves nothing new to write. */
  predicate Quiet(step: Step) {
    !step.Claim? && !step.Dequeue? && !step.FlushWrite? && !step.FlushDone? && !step.DirectPut?
  }

  lemma {:induction false} QuietStep(s: Tier, step: Step, k: BlockKey)
    requires Inv(s) && Enabled(s, step) && Quiet(step)
    ensures NoMore(s, Apply(s, step), k)
  {
    var u := Apply(s, step);
    match step
    case Publish(c) => PublishDry(s, c, k);
    case ReleaseHeld(c) => UnsentDry(s, u, s.admissions[c].key, k);
    case ReleaseToken(t) => UnsentDry(s, u, s.tokens[t].key, k);
    case Remove1(r, j) => Remove1Dry(s, r, j, k);
    case Remove2(r) => Remove2Dry(s, r, k);
    case _ => if Admits(step) { AdmissionDry(s, step, k); }
  }

  /** No step brings a key to the disk before the tier is done writing it. */
  lemma {:induction false} StepDry(s: Tier, step: Step, k: BlockKey)
    requires Inv(s) && Enabled(s, step) && Dry(s, k)
    ensures Dry(Apply(s, step), k)
  {
    if Quiet(step) {
      QuietStep(s, step, k);
      StaysDry(s, Apply(s, step), k);
    } else {
      match step
      case Claim(_, _, _, _, _) => ClaimDry(s, step, k);
      case Dequeue(o) => DequeueDry(s, o, k);
      case FlushWrite(o) => FlushWriteDry(s, o, k);
      case FlushDone(o, ok) => FlushDoneDry(s, o, ok, k);
      case DirectPut(j) => DirectDry(s, j, k);
    }
  }

  lemma {:induction false} RunDry(trace: seq<Tier>, steps: seq<Step>, n: nat, k: BlockKey)
    requires Execution(trace, steps) && Inv(trace[0]) && Dry(trace[0], k) && n < |trace|
    ensures Dry(trace[n], k)
  {
    if n > 0 {
      RunDry(trace, steps, n - 1, k);
      ExecutionKeeps(trace, steps, n - 1);
      RunStep(trace, steps, n - 1);
      StepDry(trace[n - 1], steps[n - 1], k);
    }
  }

  // ------------------------------------------------------------ success is final

  /** If the disk has the key, nobody is about to write it, so the removal's fence is up. */
  lemma {:induction false} OnDiskIsFenced(s: Tier, k: BlockKey, w: Option<nat>)
    requires Dry(s, k) && Shut(s, k) && k in s.disk
    ensures Fence(s, k, w)
  {
    forall o ensures Guard(s, k, w, o) { assert !Unwritten(s, k, o); }
  }

  lemma {:induction false} SuccessIsFinal(trace: seq<Tier>, steps: seq<Step>, i: nat, n: nat, m: nat, r: nat,
                                          k: BlockKey)
    requires Execution(trace, steps) && Inv(trace[0]) && Dry(trace[0], k)
    requires Removal(steps, i, n, r, k) && n < m < |trace| && Unrivaled(steps, i, m, k)
    requires r in trace[n].removers && RemoveAnswersOk(trace[n], r)
    ensures Absent(trace[m], k)
  {
    SameRemover(trace, steps, i, n, n, r, k);
    ExecutionKeeps(trace, steps, i);
    if trace[n].removers[r].had {
      assert SlotOk(trace[i], k);
      FinalWhenNotOutrun(trace, steps, i, n, m, r, k);
    } else {
      RunDry(trace, steps, n, k);
      assert SlotOk(trace[i], k);
      RunStep(trace, steps, i);
      RemoveShuts(trace[i], r, k);
      ShutFrom(trace, steps, i + 1, n, k);
      OnDiskIsFenced(trace[n], k, Some(r));
      AbsentFrom(trace, steps, n, m, r, k);
    }
  }

  /** In every run of a new tier a removal of both tiers that answers success is final: with no
      PUT or promotion of the key from its start on, the key is in neither tier in every later
      state and no flusher is left to write it. */
  lemma {:induction false} RemovedFromBothTiers(trace: seq<Tier>, steps: seq<Step>, i: nat, n: nat, m: nat, r: nat,
                                                k: BlockKey,
                                                bytes: nat, largeBytes: nat, retries: nat, disk: set<BlockKey>)
    requires Execution(trace, steps) && trace[0] == Start(bytes, largeBytes, retries, disk)
    requires Removal(steps, i, n, r, k) && n < m < |trace| && Unrivaled(steps, i, m, k)
    requires r in trace[n].removers && RemoveAnswersOk(trace[n], r)
    ensures Absent(trace[m], k)
  {
    StartOk(bytes, largeBytes, retries, disk);
    forall o ensures !Unwritten(trace[0], k, o) { }
    SuccessIsFinal(trace, steps, i, n, m, r, k);
  }

  // ------------------------------------------------------------ answering not-found

  lemma {:induction false} Extend(trace: seq<Tier>, steps: seq<Step>, s: Tier, step: Step, u: Tier)
    requires Execution(trace, steps) && trace[|steps|] == s && Enabled(s, step) && u == Apply(s, step)
    ensures Execution(trace + [u], steps + [step]) && (trace + [u])[|steps + [step]|] == u
  {
    var t, p := trace + [u], steps + [step];
    forall i: nat | i < |p| ensures StepAt(t, p, i) {
      if i < |steps| {
        RunStep(trace, steps, i);
        assert t[i] == trace[i] && t[i + 1] == trace[i + 1] && p[i] == steps[i];
      }
    }
  }

  /** A run in which a removal starts at once, finishes at step `n` with the given answer,
      nobody else puts the key, and yet it is on disk in state `m`. */
  ghost predicate ComesBack(trace: seq<Tier>, steps: seq<Step>, n: nat, m: nat, r: nat, k: BlockKey, ok: bool) {
    && Execution(trace, steps) && Removal(steps, 0, n, r, k) && n < m < |trace| && Unrivaled(steps, 0, m, k)
    && r in trace[n].removers && RemoveAnswersOk(trace[n], r) == ok && k in trace[m].disk
  }

  lemma {:induction false} MeetsHidden(s: Tier, r: nat, k: BlockKey)
    requires EntryOk(s, k) && k in s.index && s.index[k].hidden && r !in s.removers
    ensures var u := s.(removers := s.removers[r := Remover(k, 0, false, false)]);
      && Enabled(s, Remove1(r, k)) && Apply(s, Remove1(r, k)) == u
      && Enabled(u, Remove3(r)) && Apply(u, Remove3(r)) == s.(disk := s.disk - {k})
  {
    var u := AfterRemove1(s, r, k);
    assert u == s.(removers := s.removers[r := Remover(k, 0, false, false)]);
    assert u.removers - {r} == s.removers;
  }

  /** A removal that meets an entry hidden by another one, not yet written, does not wait. It
      answers not-found, and the flusher writes the key. */
  lemma {:induction false} OutrunRun(s: Tier, r: nat, o: nat, k: BlockKey) returns (trace: seq<Tier>, steps: seq<Step>)
    requires Inv(s) && Dry(s, k) && Outrun(s, k, o) && r !in s.removers
    ensures ComesBack(trace, steps, 1, 3, r, k, false) && trace[0] == s
  {
    assert EntryOk(s, k) && Unwritten(s, k, o);
    MeetsHidden(s, r, k);
    var s1 := s.(removers := s.removers[r := Remover(k, 0, false, false)]);
    var s2 := s.(disk := s.disk - {k});
    var s3 := AfterFlushWrite(s2, o);
    Extend([s], [], s, Remove1(r, k), s1);
    trace, steps := [s] + [s1], [] + [Remove1(r, k)];
    Extend(trace, steps, s1, Remove3(r), s2);
    trace, steps := trace + [s2], steps + [Remove3(r)];
    Extend(trace, steps, s2, FlushWrite(o), s3);
    trace, steps := trace + [s3], steps + [FlushWrite(o)];
  }

  /** What a removal's answer is worth: after success the key never comes back, and after
      not-found a flusher can bring it exactly when the removal met a hidden entry whose flusher
      had yet to write. */
  lemma {:induction false} FinalUnlessOutrun(s: Tier, r: nat, k: BlockKey)
    requires Inv(s) && Dry(s, k) && r !in s.removers
    ensures forall trace, steps, n, m :: ComesBack(trace, steps, n, m, r, k, true) ==> trace[0] != s
    ensures (exists trace, steps, n, m :: ComesBack(trace, steps, n, m, r, k, false) && trace[0] == s)
       <==> exists o :: Outrun(s, k, o)
  {
    forall trace, steps, n, m | ComesBack(trace, steps, n, m, r, k, true) ensures trace[0] != s {
      if trace[0] == s { SuccessIsFinal(trace, steps, 0, n, m, r, k); }
    }
    if o :| Outrun(s, k, o) {
      var trace, steps := OutrunRun(s, r, o, k);
    } else if trace, steps, n, m :| ComesBack(trace, steps, n, m, r, k, false) && trace[0] == s {
      FinalWhenNotOutrun(trace, steps, 0, n, m, r, k);
    }
  }
}
