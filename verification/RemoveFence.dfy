/** What a removal promises once it returns: the generation it hid is never visible and
    never written again, and a removal of both tiers leaves the key in neither. */
module RemoveFence {
  import opened Types
  import opened Sums
  import Lifecycle
  import opened RamTier
  import opened RamOwnership

  // ------------------------------------------------------------ generations

  /** Completions are only added, canceled and done, never forgotten. */
  predicate Grows(cs: map<nat, Completion>, ds: map<nat, Completion>, g: nat) {
    g in cs ==>
      && g in ds && ds[g].key == cs[g].key
      && (cs[g].canceled ==> ds[g].canceled) && (cs[g].done ==> ds[g].done)
  }

  /** Generation `g` of `k` is canceled, or hidden or gone from the index for good. */
  predicate Doomed(s: Tier, k: BlockKey, g: nat) {
    && g in s.completions && s.completions[g].key == k
    && (|| s.completions[g].canceled
        || (&& (k in s.index && s.index[k].gen == g ==> s.index[k].hidden)
            && (g in s.admissions ==> s.admissions[g].phase != Claimed && s.admissions[g].phase != Filling)))
  }

  /** Entry `k` of `n` is the one of `m`, no less hidden. */
  predicate Same(m: map<BlockKey, Entry>, n: map<BlockKey, Entry>, k: BlockKey) {
    k in n ==> k in m && n[k].gen == m[k].gen && (m[k].hidden ==> n[k].hidden)
  }

  predicate NoNewPhase(a: map<nat, Admission>, b: map<nat, Admission>, g: nat) {
    g in b && (b[g].phase == Claimed || b[g].phase == Filling) ==>
      g in a && (a[g].phase == Claimed || a[g].phase == Filling)
  }

  /** Entries stay what they are or go, no less hidden, and no admission starts over. */
  predicate Frame(s: Tier, u: Tier, k: BlockKey, g: nat) {
    && Same(s.index, u.index, k)
    && Grows(s.completions, u.completions, g)
    && NoNewPhase(s.admissions, u.admissions, g)
    && (k in u.writing ==> k in s.writing && u.writing[k] == s.writing[k])
  }

  lemma {:induction false} StaysDoomed(s: Tier, u: Tier, k: BlockKey, g: nat)
    requires Doomed(s, k, g) && Frame(s, u, k, g)
    ensures Doomed(u, k, g)
  {
  }

  /** Work on one entry leaves the actors and the disk alone. */
  predicate SameParties(s: Tier, u: Tier) {
    && u.flushes == s.flushes && u.removers == s.removers && u.disk == s.disk
    && u.writing == s.writing && u.admissions == s.admissions
  }

  lemma {:induction false} EntryParties(s: Tier, k: BlockKey, tries: nat)
    requires k in s.index
    ensures SameParties(s, Hide(s, k)) && SameParties(s, FlushRetire(s, k)) && SameParties(s, FlushCommit(s, k))
    ensures SameParties(s, FlushRetry(s, k, tries)) && SameParties(s, FlushGiveUp(s, k))
    ensures SameParties(s, Settled(s, k, s.index[k], s.arena))
  {
  }

  lemma {:induction false} SettledSame(s: Tier, j: BlockKey, e: Entry, arena: Lifecycle.View, k: BlockKey)
    requires j in s.index && e.gen == s.index[j].gen && (s.index[j].hidden ==> e.hidden)
    ensures Same(s.index, Settled(s, j, e, arena).index, k)
  {
  }

  lemma {:induction false} UnsentSame(s: Tier, u: Tier, j: BlockKey, k: BlockKey, g: nat)
    requires j in s.index && s.index[j].sendPins > 0
    requires u == Unsent(s, j).(tokens := u.tokens, admissions := u.admissions)
    requires NoNewPhase(s.admissions, u.admissions, g)
    ensures Frame(s, u, k, g) && u.removers == s.removers && u.flushes == s.flushes
  {
  }

  lemma {:induction false} HideSame(s: Tier, j: BlockKey, k: BlockKey, g: nat)
    requires j in s.index
    ensures Same(s.index, Hide(s, j).index, k) && Grows(s.completions, Hide(s, j).completions, g)
  {
  }

  lemma {:induction false} Remove1Same(s: Tier, r: nat, j: BlockKey, k: BlockKey, g: nat)
    ensures Frame(s, AfterRemove1(s, r, j), k, g)
  {
    var u := AfterRemove1(s, r, j);
    if j in s.writing {
      assert u == s.(completions := Cancel(s.completions, s.writing[j]), removers := u.removers);
    } else if j in s.index && !s.index[j].hidden {
      HideSame(s, j, k, g);
      assert u == Hide(s, j).(removers := u.removers);
    } else {
      assert u == s.(removers := u.removers);
    }
  }

  lemma {:induction false} Remove2Same(s: Tier, r: nat, k: BlockKey, g: nat)
    requires r in s.removers
    ensures Frame(s, AfterRemove2(s, r), k, g)
  {
    var j := s.removers[r].key;
    var u := AfterRemove2(s, r);
    if !(j in s.index && s.index[j].gen == s.removers[r].gen) {
      assert u == s.(removers := u.removers);
    } else if s.index[j].hidden {
      SettledSame(s, j, s.index[j], s.arena, k);
      assert u == Settled(s, j, s.index[j], s.arena).(removers := u.removers);
    } else {
      HideSame(s, j, k, g);
      assert u == Hide(s, j).(removers := u.removers);
    }
  }

  lemma {:induction false} FlushSame(s: Tier, j: BlockKey, tries: nat, ok: bool, k: BlockKey, g: nat)
    ensures Same(s.index, FlushOutcome(s, j, tries, ok).index, k)
    ensures Grows(s.completions, FlushOutcome(s, j, tries, ok).completions, g)
    ensures SameParties(s, FlushOutcome(s, j, tries, ok))
  {
    if j in s.index {
      EntryParties(s, j, tries);
      if s.index[j].hidden { RetireSame(s, j, k, g); } else { GiveUpSame(s, j, k, g); }
    }
  }

  lemma {:induction false} FlushFrame(s: Tier, o: nat, ok: bool, k: BlockKey, g: nat)
    requires o in s.flushes
    ensures Frame(s, AfterFlush(s, o, ok), k, g)
  {
    FlushSame(s, s.flushes[o].key, s.flushes[o].tries + 1, ok, k, g);
  }

  lemma {:induction false} RetireSame(s: Tier, j: BlockKey, k: BlockKey, g: nat)
    requires j in s.index
    ensures Same(s.index, FlushRetire(s, j).index, k) && Grows(s.completions, FlushRetire(s, j).completions, g)
  {
  }

  lemma {:induction false} GiveUpSame(s: Tier, j: BlockKey, k: BlockKey, g: nat)
    requires j in s.index
    ensures Same(s.index, FlushGiveUp(s, j).index, k) && Grows(s.completions, FlushGiveUp(s, j).completions, g)
  {
  }

  lemma {:induction false} PublishDoomed(s: Tier, c: nat, k: BlockKey, g: nat)
    requires Enabled(s, Publish(c)) && Doomed(s, k, g)
    requires AdmissionOk(s, c) && s.admissions[c].key !in s.index
    ensures Doomed(AfterPublish(s, c), k, g)
  {
  }

  lemma {:induction false} AdmissionFrame(s: Tier, step: Step, k: BlockKey, g: nat)
    requires Enabled(s, step) && Admits(step) && !step.Publish? && !step.Claim?
    ensures Frame(s, Apply(s, step), k, g)
  {
  }

  lemma {:induction false} StepFrame(s: Tier, step: Step, k: BlockKey, g: nat)
    requires Enabled(s, step) && !step.Publish? && !step.Claim?
    ensures Frame(s, Apply(s, step), k, g)
  {
    if Admits(step) {
      AdmissionFrame(s, step, k, g);
    } else {
      match step
      case ReleaseHeld(c) => UnsentSame(s, Apply(s, step), s.admissions[c].key, k, g);
      case ReleaseToken(t) => UnsentSame(s, Apply(s, step), s.tokens[t].key, k, g);
      case Remove1(r, j) => Remove1Same(s, r, j, k, g);
      case Remove2(r) => Remove2Same(s, r, k, g);
      case FlushDone(o, ok) => FlushFrame(s, o, ok, k, g);
      case _ =>
    }
  }

  lemma {:induction false} StepDoomed(s: Tier, step: Step, k: BlockKey, g: nat)
    requires Inv(s) && Enabled(s, step) && Doomed(s, k, g)
    ensures Doomed(Apply(s, step), k, g)
  {
    if step.Publish? {
      assert AdmissionOk(s, step.c) && SlotOk(s, s.admissions[step.c].key);
      PublishDoomed(s, step.c, k, g);
    } else if !step.Claim? {
      StepFrame(s, step, k, g);
      StaysDoomed(s, Apply(s, step), k, g);
    }
  }

  /** The RAM tier has `k`: visible, or being admitted. */
  predicate Has(s: Tier, k: BlockKey) {
    k in s.writing || (k in s.index && !s.index[k].hidden)
  }

  /** Removal `r` is after generation `g`. */
  predicate Removes(s: Tier, r: nat, g: nat) {
    r in s.removers && s.removers[r].gen == g
  }

  lemma {:induction false} RemoveDooms(s: Tier, r: nat, k: BlockKey)
    requires Inv(s) && Has(s, k)
    ensures var u := AfterRemove1(s, r, k); r in u.removers && Doomed(u, k, u.removers[r].gen)
  {
    assert SlotOk(s, k) && EntryOk(s, k);
    if k in s.writing { assert AdmissionOk(s, s.writing[k]); }
    else { HideSame(s, k, k, s.index[k].gen); }
  }

  /** No flusher works on a doomed generation once it is done, and readers cannot find it. */
  lemma {:induction false} DoneIsDead(s: Tier, k: BlockKey, g: nat)
    requires Inv(s) && Doomed(s, k, g) && s.completions[g].done
    ensures k in s.index && s.index[k].gen == g ==> s.index[k].hidden
    ensures forall o :: o in s.flushes ==> s.flushes[o].gen != g
  {
    assert EntryOk(s, k);
    forall o ensures o in s.flushes ==> s.flushes[o].gen != g {
      assert FlushOk(s, o);
      if o in s.flushes { assert EntryOk(s, s.flushes[o].key); }
    }
  }

  lemma {:induction false} StepDone(s: Tier, step: Step, g: nat)
    requires Enabled(s, step) && Done(s.completions, g)
    ensures Done(Apply(s, step).completions, g)
  {
    if !step.Publish? && !step.Claim? { StepFrame(s, step, s.completions[g].key, g); }
  }

  /** The fence. After a removal canceled or hid generation `g` at step `i` and saw it done at
      step `j`, no later state of the run shows that generation or has a flusher on it,
      whatever newer generations of the key do. */
  lemma {:induction false} RemovedGenerationIsDead(trace: seq<Tier>, steps: seq<Step>, i: nat, j: nat, m: nat,
                                                   k: BlockKey, g: nat)
    requires Execution(trace, steps) && Inv(trace[0]) && i < j < m < |trace|
    requires steps[i].Remove1? && steps[i].key == k
    requires Has(trace[i], k) && Removes(trace[i + 1], steps[i].r, g)
    requires steps[j].Remove2? && Removes(trace[j], steps[j].r, g)
    ensures k in trace[m].index && trace[m].index[k].gen == g ==> trace[m].index[k].hidden
    ensures forall o :: o in trace[m].flushes ==> trace[m].flushes[o].gen != g
  {
    DoomedFrom(trace, steps, i, m, k, g);
    RunStep(trace, steps, j);
    DoneFrom(trace, steps, j, m, g);
    ExecutionKeeps(trace, steps, m);
    DoneIsDead(trace[m], k, g);
  }

  lemma {:induction false} DoomedFrom(trace: seq<Tier>, steps: seq<Step>, i: nat, m: nat, k: BlockKey, g: nat)
    requires Execution(trace, steps) && Inv(trace[0]) && i < m < |trace|
    requires steps[i].Remove1? && steps[i].key == k
    requires Has(trace[i], k) && Removes(trace[i + 1], steps[i].r, g)
    ensures Doomed(trace[m], k, g)
  {
    ExecutionKeeps(trace, steps, m - 1);
    if m == i + 1 {
      RunStep(trace, steps, i);
      RemoveDooms(trace[i], steps[i].r, k);
    } else {
      DoomedFrom(trace, steps, i, m - 1, k, g);
      DoomedNext(trace, steps, m - 1, k, g);
    }
  }

  lemma {:induction false} DoomedNext(trace: seq<Tier>, steps: seq<Step>, i: nat, k: BlockKey, g: nat)
    requires Execution(trace, steps) && i < |steps| && Inv(trace[i]) && Doomed(trace[i], k, g)
    ensures Doomed(trace[i + 1], k, g)
  {
    RunStep(trace, steps, i);
    StepDoomed(trace[i], steps[i], k, g);
  }

  lemma {:induction false} DoneFrom(trace: seq<Tier>, steps: seq<Step>, j: nat, m: nat, g: nat)
    requires Execution(trace, steps) && j <= m < |trace| && Done(trace[j].completions, g)
    ensures Done(trace[m].completions, g)
    decreases m - j
  {
    if j < m {
      DoneNext(trace, steps, j, g);
      DoneFrom(trace, steps, j + 1, m, g);
    }
  }

  lemma {:induction false} DoneNext(trace: seq<Tier>, steps: seq<Step>, i: nat, g: nat)
    requires Execution(trace, steps) && i < |steps| && Done(trace[i].completions, g)
    ensures Done(trace[i + 1].completions, g)
  {
    RunStep(trace, steps, i);
    StepDone(trace[i], steps[i], g);
  }

  // ------------------------------------------------------------ both tiers

  /** `k` is not visible in RAM and no admission in progress can make it so. */
  predicate Shut(s: Tier, k: BlockKey) {
    && (k in s.writing ==> s.writing[k] in s.completions && s.completions[s.writing[k]].canceled)
    && (k in s.index ==> s.index[k].hidden)
  }

  /** A flusher that has yet to write `k` is one that removal `w` is still waiting for. */
  predicate Guard(s: Tier, k: BlockKey, w: Option<nat>, o: nat) {
    o in s.flushes && s.flushes[o].key == k && !s.flushes[o].written ==>
      && w.Some? && w.value in s.removers
      && s.removers[w.value].waiting && s.removers[w.value].gen == s.flushes[o].gen
  }

  ghost predicate Fence(s: Tier, k: BlockKey, w: Option<nat>) {
    && Shut(s, k)
    && forall o :: Guard(s, k, w, o)
  }

  /** The one state in which a removal does not wait for a flusher that has yet to write:
      another removal has hidden the entry and waits instead. */
  predicate Outrun(s: Tier, k: BlockKey, o: nat) {
    k in s.index && s.index[k].hidden && o in s.flushes && s.flushes[o].key == k && !s.flushes[o].written
  }

  lemma {:induction false} RemoveShuts(s: Tier, r: nat, k: BlockKey)
    requires SlotOk(s, k) && (k in s.writing ==> AdmissionOk(s, s.writing[k]))
    ensures Shut(AfterRemove1(s, r, k), k)
    ensures AfterRemove1(s, r, k).flushes == s.flushes
  {
    var u := AfterRemove1(s, r, k);
    if k in s.writing {
      assert u.completions == Cancel(s.completions, s.writing[k]) && u.index == s.index;
    } else if k in s.index && !s.index[k].hidden {
      assert u.index == Hide(s, k).index && u.writing == s.writing;
    } else {
      assert u.index == s.index && u.writing == s.writing;
    }
  }

  lemma {:induction false} RemoveRaisesFence(s: Tier, r: nat, k: BlockKey)
    requires Inv(s) && forall o :: !Outrun(s, k, o)
    ensures Fence(AfterRemove1(s, r, k), k, Some(r))
  {
    var u := AfterRemove1(s, r, k);
    assert SlotOk(s, k) && (k in s.writing ==> AdmissionOk(s, s.writing[k]));
    RemoveShuts(s, r, k);
    forall o ensures Guard(u, k, Some(r), o) { assert !Outrun(s, k, o) && FlushOk(s, o); }
  }

  lemma {:induction false} PublishShut(s: Tier, c: nat, k: BlockKey)
    requires Enabled(s, Publish(c)) && AdmissionOk(s, c) && Shut(s, k)
    ensures Shut(AfterPublish(s, c), k)
  {
    var u := AfterPublish(s, c);
    if !s.completions[c].canceled { assert u == Published(s, c) && s.admissions[c].key != k; }
    else if s.admissions[c].kind == Reservation { assert u == Concealed(s, c); }
    else { assert u == Withdrawn(s, c); }
  }

  lemma {:induction false} StepShut(s: Tier, step: Step, k: BlockKey)
    requires Inv(s) && Enabled(s, step) && Shut(s, k) && !(step.Claim? && step.key == k)
    ensures Shut(Apply(s, step), k)
  {
    if step.Publish? {
      assert AdmissionOk(s, step.c);
      PublishShut(s, step.c, k);
    } else if !step.Claim? {
      StepFrame(s, step, k, if k in s.writing then s.writing[k] else 0);
    }
  }

  /** The steps that may drop an entry. */
  predicate Drops(step: Step) {
    step.ReleaseHeld? || step.ReleaseToken? || step.Remove1? || step.Remove2? || step.FlushDone?
  }

  lemma {:induction false} Remove2Guard(s: Tier, r: nat, k: BlockKey, w: Option<nat>, o: nat)
    requires Inv(s) && Enabled(s, Remove2(r)) && Guard(s, k, w, o)
    ensures Guard(AfterRemove2(s, r), k, w, o)
  {
    Remove2Parties(s, r);
    assert FlushOk(s, o);
    if o in s.flushes { assert EntryOk(s, s.flushes[o].key); }
  }

  lemma {:induction false} DroppingGuard(s: Tier, step: Step, k: BlockKey, w: Option<nat>, o: nat)
    requires Inv(s) && Enabled(s, step) && Shut(s, k) && Guard(s, k, w, o) && Drops(step)
    ensures Guard(Apply(s, step), k, w, o)
  {
    var u := Apply(s, step);
    assert FlushOk(s, o);
    match step
    case ReleaseHeld(c) => UnsentSame(s, u, s.admissions[c].key, k, 0);
    case ReleaseToken(t) => UnsentSame(s, u, s.tokens[t].key, k, 0);
    case Remove1(r, j) => Remove1Parties(s, r, j);
    case Remove2(r) => Remove2Guard(s, r, k, w, o);
    case FlushDone(p, ok) => FlushSame(s, s.flushes[p].key, s.flushes[p].tries + 1, ok, k, 0);
  }

  lemma {:induction false} StepGuard(s: Tier, step: Step, k: BlockKey, w: Option<nat>, o: nat)
    requires Inv(s) && Enabled(s, step) && Shut(s, k) && Guard(s, k, w, o)
    ensures Guard(Apply(s, step), k, w, o)
  {
    if Drops(step) { DroppingGuard(s, step, k, w, o); } else { assert FlushOk(s, o); }
  }

  lemma {:induction false} Remove1Parties(s: Tier, r: nat, k: BlockKey)
    ensures var u := AfterRemove1(s, r, k);
      SameParties(s, u.(removers := s.removers)) && u.removers - {r} == s.removers - {r}
  {
    if k in s.index { EntryParties(s, k, 0); }
  }

  lemma {:induction false} Remove2Parties(s: Tier, r: nat)
    requires r in s.removers
    ensures var u := AfterRemove2(s, r);
      SameParties(s, u.(removers := s.removers)) && u.removers == s.removers[r := s.removers[r].(waiting := false)]
  {
    if s.removers[r].key in s.index { EntryParties(s, s.removers[r].key, 0); }
  }

  lemma {:induction false} StepFence(s: Tier, step: Step, k: BlockKey, w: Option<nat>)
    requires Inv(s) && Enabled(s, step) && Fence(s, k, w) && !(step.Claim? && step.key == k)
    ensures Fence(Apply(s, step), k, w)
  {
    StepShut(s, step, k);
    forall o ensures Guard(Apply(s, step), k, w, o) {
      assert Guard(s, k, w, o);
      StepGuard(s, step, k, w, o);
    }
  }

  /** After the fence, only a direct PUT can bring the key to the disk. */
  lemma {:induction false} StepNoDisk(s: Tier, step: Step, k: BlockKey)
    requires Enabled(s, step) && Fence(s, k, None) && k !in s.disk
    requires !(step.DirectPut? && step.key == k)
    ensures k !in Apply(s, step).disk
  {
    match step
    case ReleaseHeld(c) => UnsentSame(s, Apply(s, step), s.admissions[c].key, k, 0);
    case ReleaseToken(t) => UnsentSame(s, Apply(s, step), s.tokens[t].key, k, 0);
    case Remove1(r, j) => Remove1Parties(s, r, j);
    case Remove2(r) => Remove2Parties(s, r);
    case FlushWrite(o) => assert Guard(s, k, None, o);
    case FlushDone(o, ok) => FlushSame(s, s.flushes[o].key, s.flushes[o].tries + 1, ok, k, 0);
    case _ =>
  }

  /** Nobody else puts or promotes `k` in the given stretch of the run. */
  predicate Unrivaled(steps: seq<Step>, lo: nat, hi: nat, k: BlockKey)
    requires hi <= |steps|
  {
    forall i :: lo <= i < hi ==>
      !(steps[i].Claim? && steps[i].key == k) && !(steps[i].DirectPut? && steps[i].key == k)
  }

  lemma {:induction false} FenceFrom(trace: seq<Tier>, steps: seq<Step>, i: nat, m: nat, k: BlockKey, w: Option<nat>)
    requires Execution(trace, steps) && Inv(trace[0]) && i <= m < |trace|
    requires Fence(trace[i], k, w) && Unrivaled(steps, i, m, k)
    ensures Fence(trace[m], k, w)
  {
    if i < m {
      FenceFrom(trace, steps, i, m - 1, k, w);
      ExecutionKeeps(trace, steps, m - 1);
      RunStep(trace, steps, m - 1);
      StepFence(trace[m - 1], steps[m - 1], k, w);
    }
  }

  lemma {:induction false} GoneFrom(trace: seq<Tier>, steps: seq<Step>, i: nat, m: nat, k: BlockKey)
    requires Execution(trace, steps) && Inv(trace[0]) && i <= m < |trace|
    requires Fence(trace[i], k, None) && k !in trace[i].disk && Unrivaled(steps, i, m, k)
    ensures Fence(trace[m], k, None) && k !in trace[m].disk
  {
    if i < m {
      GoneFrom(trace, steps, i, m - 1, k);
      ExecutionKeeps(trace, steps, m - 1);
      RunStep(trace, steps, m - 1);
      StepFence(trace[m - 1], steps[m - 1], k, None);
      StepNoDisk(trace[m - 1], steps[m - 1], k);
    }
  }

  /** The disk removal of a removal that no longer waits ends the fence: nobody is left to
      write the key. */
  lemma {:induction false} FenceCloses(s: Tier, r: nat, k: BlockKey)
    requires Fence(s, k, Some(r)) && Enabled(s, Remove3(r)) && s.removers[r].key == k
    ensures Fence(AfterRemove3(s, r), k, None) && k !in AfterRemove3(s, r).disk
  {
    forall o ensures Guard(AfterRemove3(s, r), k, None, o) { assert Guard(s, k, Some(r), o); }
  }

  /** A removal of `k` is done, nobody is left to write the key, and nobody puts it again: the
      key stays in neither tier. */
  ghost predicate Absent(s: Tier, k: BlockKey) {
    && k !in s.disk && (k in s.index ==> s.index[k].hidden)
    && forall o :: o in s.flushes && s.flushes[o].key == k ==> s.flushes[o].written
  }

  lemma {:induction false} AbsentFrom(trace: seq<Tier>, steps: seq<Step>, n: nat, m: nat, r: nat, k: BlockKey)
    requires Execution(trace, steps) && Inv(trace[0]) && n < m < |trace|
    requires steps[n] == Remove3(r) && r in trace[n].removers && trace[n].removers[r].key == k
    requires Fence(trace[n], k, Some(r)) && Unrivaled(steps, n, m, k)
    ensures Absent(trace[m], k)
  {
    RunStep(trace, steps, n);
    FenceCloses(trace[n], r, k);
    GoneFrom(trace, steps, n + 1, m, k);
    forall o ensures o in trace[m].flushes && trace[m].flushes[o].key == k ==> trace[m].flushes[o].written {
      assert Guard(trace[m], k, None, o);
    }
  }

  /** The removal that starts at step `i` is finished by step `n`. */
  predicate Removal(steps: seq<Step>, i: nat, n: nat, r: nat, k: BlockKey) {
    && i < n < |steps| && steps[i] == Remove1(r, k) && steps[n] == Remove3(r)
    && forall j :: i < j < n ==> steps[j] != Remove3(r)
  }

  lemma {:induction false} StepRemover(s: Tier, step: Step, r: nat)
    requires Enabled(s, step) && r in s.removers && step != Remove3(r)
    ensures var u := Apply(s, step);
      r in u.removers && u.removers[r] == s.removers[r].(waiting := s.removers[r].waiting && step != Remove2(r))
  {
    match step
    case ReleaseHeld(c) => UnsentSame(s, Apply(s, step), s.admissions[c].key, s.admissions[c].key, 0);
    case ReleaseToken(t) => UnsentSame(s, Apply(s, step), s.tokens[t].key, s.tokens[t].key, 0);
    case Remove1(x, j) => Remove1Parties(s, x, j);
    case Remove2(x) => Remove2Parties(s, x);
    case FlushDone(o, ok) => FlushSame(s, s.flushes[o].key, s.flushes[o].tries + 1, ok, s.flushes[o].key, 0);
    case _ =>
  }

  lemma {:induction false} RemoverStarts(trace: seq<Tier>, steps: seq<Step>, i: nat, r: nat, k: BlockKey)
    requires Execution(trace, steps) && i < |steps| && steps[i] == Remove1(r, k)
    ensures var u := trace[i + 1]; r in u.removers && u.removers[r].key == k && u.removers[r].had == Has(trace[i], k)
  {
    RunStep(trace, steps, i);
  }

  lemma {:induction false} RemoverNext(trace: seq<Tier>, steps: seq<Step>, i: nat, r: nat)
    requires Execution(trace, steps) && i < |steps| && r in trace[i].removers && steps[i] != Remove3(r)
    ensures var s, u := trace[i], trace[i + 1];
      r in u.removers && u.removers[r].key == s.removers[r].key && u.removers[r].had == s.removers[r].had
  {
    RunStep(trace, steps, i);
    StepRemover(trace[i], steps[i], r);
  }

  /** A removal keeps its key and what it found. */
  lemma {:induction false} SameRemover(trace: seq<Tier>, steps: seq<Step>, i: nat, n: nat, m: nat, r: nat, k: BlockKey)
    requires Execution(trace, steps) && Removal(steps, i, n, r, k) && i < m <= n
    ensures r in trace[m].removers && trace[m].removers[r].key == k
    ensures trace[m].removers[r].had == Has(trace[i], k)
  {
    if m == i + 1 {
      RemoverStarts(trace, steps, i, r, k);
    } else {
      SameRemover(trace, steps, i, n, m - 1, r, k);
      RemoverNext(trace, steps, m - 1, r);
    }
  }

  /** A removal that did not meet an unwritten hidden entry is final, whatever it answers. */
  lemma {:induction false} FinalWhenNotOutrun(trace: seq<Tier>, steps: seq<Step>, i: nat, n: nat, m: nat, r: nat,
                                              k: BlockKey)
    requires Execution(trace, steps) && Inv(trace[0]) && Removal(steps, i, n, r, k) && n < m < |trace|
    requires Unrivaled(steps, i, m, k)
    requires forall o :: !Outrun(trace[i], k, o)
    ensures Absent(trace[m], k)
  {
    ExecutionKeeps(trace, steps, i);
    RunStep(trace, steps, i);
    RemoveRaisesFence(trace[i], r, k);
    FenceFrom(trace, steps, i + 1, n, k, Some(r));
    SameRemover(trace, steps, i, n, n, r, k);
    AbsentFrom(trace, steps, n, m, r, k);
  }

  lemma {:induction false} ShutFrom(trace: seq<Tier>, steps: seq<Step>, i: nat, m: nat, k: BlockKey)
    requires Execution(trace, steps) && Inv(trace[0]) && i <= m < |trace|
    requires Shut(trace[i], k) && Unrivaled(steps, i, m, k)
    ensures Shut(trace[m], k)
  {
    if i < m {
      ShutFrom(trace, steps, i, m - 1, k);
      ExecutionKeeps(trace, steps, m - 1);
      RunStep(trace, steps, m - 1);
      StepShut(trace[m - 1], steps[m - 1], k);
    }
  }

  /** The answer of a removal: the RAM tier had the key or the disk did. */
  predicate RemoveAnswersOk(s: Tier, r: nat)
    requires r in s.removers
  {
    s.removers[r].had || s.removers[r].key in s.disk
  }
}
