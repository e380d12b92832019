/** The removal that a not-found answer outruns. An entry that is hidden while a flusher works
    on it was hidden by a removal that is still waiting for that flusher. */
module RemovalWait {
  import opened Types
  import Lifecycle
  import opened RamTier
  import opened RamOwnership
  import opened RemoveFence
  import opened RemovalFinality

  /** Removal `w` of `k` waits for the generation that is in the index. */
  predicate Awaits(s: Tier, k: BlockKey, w: nat) {
    && k in s.index && w in s.removers
    && s.removers[w].key == k && s.removers[w].waiting && s.removers[w].gen == s.index[k].gen
  }

  /** Hidden, and a flusher has it. */
  predicate InFlight(s: Tier, k: BlockKey) {
    k in s.index && s.index[k].hidden && s.index[k].flushing
  }

  ghost predicate Awaited(s: Tier, k: BlockKey) {
    InFlight(s, k) ==> exists w :: Awaits(s, k, w)
  }

  /** Entry `k` of `n` is in flight only if it was in `m`. */
  predicate NoTakeoff(m: map<BlockKey, Entry>, n: map<BlockKey, Entry>, k: BlockKey) {
    k in n && n[k].hidden && n[k].flushing ==>
      k in m && m[k].hidden && m[k].flushing && m[k].gen == n[k].gen
  }

  lemma {:induction false} SettledTakeoff(s: Tier, j: BlockKey, e: Entry, arena: Lifecycle.View, k: BlockKey)
    requires j in s.index
    requires e.hidden && e.flushing ==> s.index[j].hidden && s.index[j].flushing && s.index[j].gen == e.gen
    ensures NoTakeoff(s.index, Settled(s, j, e, arena).index, k)
  {
  }

  lemma {:induction false} HideTakeoff(s: Tier, j: BlockKey, k: BlockKey)
    requires j in s.index && (j == k ==> !s.index[j].flushing || s.index[j].hidden)
    ensures NoTakeoff(s.index, Hide(s, j).index, k)
  {
  }

  lemma {:induction false} UnsentTakeoff(s: Tier, j: BlockKey, k: BlockKey)
    requires j in s.index && s.index[j].sendPins > 0
    ensures NoTakeoff(s.index, Unsent(s, j).index, k)
  {
    var e := s.index[j];
    SettledTakeoff(s, j, e.(sendPins := e.sendPins - 1), UnpinnedFor(s, j, e, true), k);
  }

  lemma {:induction false} RetireTakeoff(s: Tier, j: BlockKey, k: BlockKey)
    requires j in s.index
    ensures NoTakeoff(s.index, FlushRetire(s, j).index, k)
  {
  }

  lemma {:induction false} GiveUpTakeoff(s: Tier, j: BlockKey, k: BlockKey)
    requires j in s.index
    ensures NoTakeoff(s.index, FlushGiveUp(s, j).index, k)
  {
  }

  lemma {:induction false} FlushTakeoff(s: Tier, j: BlockKey, tries: nat, ok: bool, k: BlockKey)
    ensures NoTakeoff(s.index, FlushOutcome(s, j, tries, ok).index, k)
  {
    if j in s.index {
      if s.index[j].hidden { RetireTakeoff(s, j, k); } else { GiveUpTakeoff(s, j, k); }
    }
  }

  lemma {:induction false} Remove2Takeoff(s: Tier, w: nat, k: BlockKey)
    requires Inv(s) && Enabled(s, Remove2(w))
    ensures NoTakeoff(s.index, AfterRemove2(s, w).index, k)
  {
    var j := s.removers[w].key;
    assert EntryOk(s, j);
    if j in s.index && s.index[j].gen == s.removers[w].gen {
      if s.index[j].hidden { assert NoTakeoff(s.index, Settled(s, j, s.index[j], s.arena).index, k); }
      else { HideTakeoff(s, j, k); }
    }
  }

  lemma {:induction false} Remove1Takeoff(s: Tier, r: nat, j: BlockKey, k: BlockKey)
    requires j != k
    ensures NoTakeoff(s.index, AfterRemove1(s, r, j).index, k)
  {
    if j in s.index { HideTakeoff(s, j, k); }
    assert AfterRemove1(s, r, j).index == s.index || (j in s.index && AfterRemove1(s, r, j).index == Hide(s, j).index);
  }

  lemma {:induction false} DropTakeoff(s: Tier, step: Step, k: BlockKey)
    requires Inv(s) && Enabled(s, step) && Drops(step) && !(step.Remove1? && step.key == k)
    ensures NoTakeoff(s.index, Apply(s, step).index, k)
  {
    match step
    case ReleaseHeld(c) => UnsentTakeoff(s, s.admissions[c].key, k);
    case ReleaseToken(t) => UnsentTakeoff(s, s.tokens[t].key, k);
    case Remove1(r, j) => Remove1Takeoff(s, r, j, k);
    case Remove2(r) => Remove2Takeoff(s, r, k);
    case FlushDone(o, ok) => FlushTakeoff(s, s.flushes[o].key, s.flushes[o].tries + 1, ok, k);
  }

  /** Only a removal of the key hides an entry in flight. */
  lemma {:induction false} StepTakeoff(s: Tier, step: Step, k: BlockKey)
    requires Inv(s) && Enabled(s, step) && !(step.Remove1? && step.key == k)
    ensures NoTakeoff(s.index, Apply(s, step).index, k)
  {
    if Admits(step) { AdmissionTakeoff(s, step, k); }
    else if Drops(step) { DropTakeoff(s, step, k); }
  }

  lemma {:induction false} PublishTakeoff(s: Tier, c: nat, k: BlockKey)
    requires c in s.admissions && c in s.completions
    ensures NoTakeoff(s.index, AfterPublish(s, c).index, k)
  {
    assert NoTakeoff(s.index, Published(s, c).index, k);
    assert Concealed(s, c).index == s.index == Withdrawn(s, c).index;
  }

  lemma {:induction false} AdmissionTakeoff(s: Tier, step: Step, k: BlockKey)
    requires Enabled(s, step) && Admits(step)
    ensures NoTakeoff(s.index, Apply(s, step).index, k)
  {
    if step.Publish? { PublishTakeoff(s, step.c, k); }
  }

  lemma {:induction false} HideGen(s: Tier, k: BlockKey)
    requires k in s.index
    ensures k in Hide(s, k).index ==> Hide(s, k).index[k].gen == s.index[k].gen
  {
  }

  /** A removal hides an entry in flight only by waiting for it. */
  lemma {:induction false} Remove1Awaited(s: Tier, r: nat, k: BlockKey)
    requires EntryOk(s, k) && r !in s.removers && Awaited(s, k)
    ensures Awaited(AfterRemove1(s, r, k), k)
  {
    var u := AfterRemove1(s, r, k);
    if k in s.index && !s.index[k].hidden {
      HideGen(s, k);
      assert u.index == Hide(s, k).index && u.removers[r] == Remover(k, s.index[k].gen, true, true);
      if InFlight(u, k) { assert Awaits(u, k, r); }
    } else {
      Remove1Parties(s, r, k);
      assert u.index == s.index;
      if w :| Awaits(s, k, w) { assert w in u.removers - {r} && Awaits(u, k, w); }
    }
  }

  /** A removal waits as long as the entry is in flight. */
  lemma {:induction false} StaysAwaited(s: Tier, step: Step, k: BlockKey)
    requires Inv(s) && Enabled(s, step) && Awaited(s, k) && NoTakeoff(s.index, Apply(s, step).index, k)
    ensures Awaited(Apply(s, step), k)
  {
    var u := Apply(s, step);
    if InFlight(u, k) {
      var w :| Awaits(s, k, w);
      assert EntryOk(s, k);
      StepRemover(s, step, w);
      assert Awaits(u, k, w);
    }
  }

  lemma {:induction false} StepAwaited(s: Tier, step: Step, k: BlockKey)
    requires Inv(s) && Enabled(s, step) && Awaited(s, k)
    ensures Awaited(Apply(s, step), k)
  {
    if step.Remove1? && step.key == k {
      assert EntryOk(s, k);
      Remove1Awaited(s, step.r, k);
    } else {
      StepTakeoff(s, step, k);
      StaysAwaited(s, step, k);
    }
  }

  lemma {:induction false} RunAwaited(trace: seq<Tier>, steps: seq<Step>, n: nat, k: BlockKey)
    requires Execution(trace, steps) && Inv(trace[0]) && Awaited(trace[0], k) && n < |trace|
    ensures Awaited(trace[n], k)
  {
    if n > 0 {
      RunAwaited(trace, steps, n - 1, k);
      ExecutionKeeps(trace, steps, n - 1);
      AwaitedNext(trace, steps, n - 1, k);
    }
  }

  lemma {:induction false} AwaitedNext(trace: seq<Tier>, steps: seq<Step>, i: nat, k: BlockKey)
    requires Execution(trace, steps) && i < |steps| && Inv(trace[i]) && Awaited(trace[i], k)
    ensures Awaited(trace[i + 1], k)
  {
    RunStep(trace, steps, i);
    StepAwaited(trace[i], steps[i], k);
  }

  /** Another removal waits for a flusher that has yet to write. */
  predicate Outruns(s: Tier, k: BlockKey, o: nat, w: nat) {
    Outrun(s, k, o) && Awaits(s, k, w)
  }

  /** In every state of every run of a new tier: a removal that starts there and answers success
      is final, and one that answers not-found can be followed by a write of the key exactly when
      another removal is waiting for a flusher that has yet to write. */
  lemma {:induction false} FinalUnlessAwaited(trace: seq<Tier>, steps: seq<Step>, i: nat, r: nat, k: BlockKey,
                                              bytes: nat, largeBytes: nat, retries: nat, disk: set<BlockKey>)
    requires Execution(trace, steps) && trace[0] == Start(bytes, largeBytes, retries, disk)
    requires i < |trace| && r !in trace[i].removers
    ensures forall ss, es, n, m :: ComesBack(ss, es, n, m, r, k, true) ==> ss[0] != trace[i]
    ensures (exists ss, es, n, m :: ComesBack(ss, es, n, m, r, k, false) && ss[0] == trace[i])
      <==> exists o, w :: Outruns(trace[i], k, o, w)
  {
    StartOk(bytes, largeBytes, retries, disk);
    forall o ensures !Unwritten(trace[0], k, o) { }
    ExecutionKeeps(trace, steps, i);
    RunDry(trace, steps, i, k);
    RunAwaited(trace, steps, i, k);
    FinalUnlessOutrun(trace[i], r, k);
    if o :| Outrun(trace[i], k, o) {
      assert FlushOk(trace[i], o);
      var w :| Awaits(trace[i], k, w);
      assert Outruns(trace[i], k, o, w);
    }
  }

  // ------------------------------------------------------------ it happens

  /** A new tier with one write-back value being admitted. */
  lemma {:induction false} Admitting(k: BlockKey, ref: SlotRef, bytes: nat, largeBytes: nat, retries: nat,
                                     disk: set<BlockKey>)
    returns (trace: seq<Tier>, steps: seq<Step>)
    requires ref.size <= bytes && k !in disk
    ensures Execution(trace, steps) && trace[0] == Start(bytes, largeBytes, retries, disk) && |steps| == 2
    ensures var u := trace[2];
      && u.admissions == map[0 := Admission(k, ref.size, false, WriteBack, Filling)] && u.writing == map[k := 0]
      && u.completions == map[0 := Completion(k, false, false, false)]
      && u.index == map[] && u.queue == [] && u.flushes == map[] && u.removers == map[]
  {
    var s0 := Start(bytes, largeBytes, retries, disk);
    var s1 := AfterClaim(s0, 0, k, ref.size, false, WriteBack);
    var s2 := AfterFillArena(s1, 0, ref);
    Extend([s0], [], s0, Claim(0, k, ref.size, false, WriteBack), s1);
    trace, steps := [s0] + [s1], [] + [Claim(0, k, ref.size, false, WriteBack)];
    Extend(trace, steps, s1, FillArena(0, ref), s2);
    trace, steps := trace + [s2], steps + [FillArena(0, ref)];
  }

  /** Published, and taken by a flusher. */
  lemma {:induction false} Flushing(k: BlockKey, ref: SlotRef, bytes: nat, largeBytes: nat, retries: nat,
                                    disk: set<BlockKey>)
    returns (trace: seq<Tier>, steps: seq<Step>)
    requires ref.size <= bytes && k !in disk
    ensures Execution(trace, steps) && trace[0] == Start(bytes, largeBytes, retries, disk) && |steps| == 4
    ensures var u := trace[4];
      && u.index == map[k := Entry(0, ref.size, false, 0, false, true, true, false)]
      && u.flushes == map[0 := Flush(k, 0, 0, false)] && u.removers == map[] && u.writing == map[]
  {
    trace, steps := Admitting(k, ref, bytes, largeBytes, retries, disk);
    var s2 := trace[2];
    var s3 := Published(s2, 0);
    var s4 := AfterDequeue(s3, 0);
    Extend(trace, steps, s2, Publish(0), s3);
    trace, steps := trace + [s3], steps + [Publish(0)];
    assert s3.queue == [QueueItem(k, 0)];
    Extend(trace, steps, s3, Dequeue(0), s4);
    trace, steps := trace + [s4], steps + [Dequeue(0)];
  }

  /** A removal that finds it hides it and waits, and every further one outruns that removal. */
  lemma {:induction false} OutrunHappens(k: BlockKey, ref: SlotRef, bytes: nat, largeBytes: nat, retries: nat,
                                         disk: set<BlockKey>, w: nat)
    returns (trace: seq<Tier>, steps: seq<Step>)
    requires ref.size <= bytes && k !in disk
    ensures Execution(trace, steps) && trace[0] == Start(bytes, largeBytes, retries, disk) && |steps| == 5
    ensures Outruns(trace[5], k, 0, w)
  {
    trace, steps := Flushing(k, ref, bytes, largeBytes, retries, disk);
    var s := trace[4];
    var u := AfterRemove1(s, w, k);
    Extend(trace, steps, s, Remove1(w, k), u);
    trace, steps := trace + [u], steps + [Remove1(w, k)];
  }
}
