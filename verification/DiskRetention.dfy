/** A retained key of the disk store outlives every eviction until its deadline. */
module DiskRetention {
  import opened Types
  import opened Lifecycle
  import opened DiskStore
  import opened DiskStoreSafety
  import opened DiskRemoval

  /** Committed on slot `ref` and protected at least until `until`. */
  predicate Held(s: Store, k: BlockKey, ref: SlotRef, until: nat) {
    k in s.committed && k in s.view && s.view[k].ref == ref && s.view[k].until >= until
  }

  /** A retention step is the allocator's event on the view, and keeps the record of the key. */
  lemma {:induction false} RetainGrants(s: Store, k: BlockKey, until: nat, recordOk: bool)
    requires Inv(s) && Enabled(s, Retain(k, until, recordOk))
    ensures var u := Apply(s, Retain(k, until, recordOk));
      && Lifecycle.Step(s.view, Retained(k, until), u.view)
      && (u.healthy ==> RecordedAt(u.table, u.view[k].ref, k, s.committed[k]))
  {
    assert CommitOk(s, k);
  }

  lemma {:induction false} UnholdHeld(s: Store, j: BlockKey, k: BlockKey, ref: SlotRef, until: nat)
    requires KeyOk(s, j) && KeyOk(s, k) && Held(s, k, ref, until)
    ensures Held(Unhold(s, j), k, ref, until)
  {
  }

  lemma {:induction false} ReleaseHeld(s: Store, j: BlockKey, recordOk: bool, k: BlockKey, ref: SlotRef, until: nat)
    requires KeyOk(s, j) && KeyOk(s, k) && Held(s, k, ref, until)
    ensures Held(AfterRelease(s, j, recordOk), k, ref, until)
  {
    UnholdHeld(s, j, k, ref, until);
  }

  lemma {:induction false} CommitHeld(s: Store, t: nat, recordOk: bool, k: BlockKey, ref: SlotRef, until: nat)
    requires t in s.writers && KeyOk(s, s.writers[t].key) && KeyOk(s, k) && WriterOk(s, t) && Held(s, k, ref, until)
    ensures Held(AfterCommit(s, t, recordOk), k, ref, until)
  {
    ReleaseHeld(s, s.writers[t].key, recordOk, k, ref, until);
  }

  /** Neither a removal of `k` nor an expiry at or after `until`. */
  predicate Lets(step: Step, k: BlockKey, until: nat) {
    !(step.Remove? && step.key == k) && (step.Expire? ==> step.now < until)
  }

  /** What an unlocked PUT does leaves view and commit map alone. */
  predicate Writes(step: Step) {
    || step.Torn? || step.WriteDone? || step.WriteFails? || step.RecordDone? || step.RecordFails?
    || step.ReserveFails? || step.Fault?
  }

  lemma {:induction false} WriteHeld(s: Store, step: Step)
    requires Enabled(s, step) && Writes(step)
    ensures Apply(s, step).view == s.view && Apply(s, step).committed == s.committed
  {
  }

  /** Evictions pass it by, and an expiry before its deadline does. */
  lemma {:induction false} EvictHeld(s: Store, step: Step, k: BlockKey, ref: SlotRef, until: nat)
    requires Enabled(s, step) && Held(s, k, ref, until) && 0 < until && Lets(step, k, until)
    requires step.Reserve? || step.Reclaim? || step.Expire?
    ensures Held(Apply(s, step), k, ref, until)
  {
  }

  /** A PUT or a reader that ends. */
  lemma {:induction false} EndHeld(s: Store, step: Step, k: BlockKey, ref: SlotRef, until: nat)
    requires Inv(s) && Enabled(s, step) && Held(s, k, ref, until) && (step.Commit? || step.Release?)
    ensures Held(Apply(s, step), k, ref, until)
  {
    assert KeyOk(s, k);
    if step.Commit? {
      assert WriterOk(s, step.t) && KeyOk(s, s.writers[step.t].key);
      CommitHeld(s, step.t, step.recordOk, k, ref, until);
    } else {
      assert KeyOk(s, s.readers[step.t].key);
      ReleaseHeld(s, s.readers[step.t].key, step.recordOk, k, ref, until);
    }
  }

  lemma {:induction false} UseHeld(s: Store, step: Step, k: BlockKey, ref: SlotRef, until: nat)
    requires Enabled(s, step) && Held(s, k, ref, until) && Lets(step, k, until)
    requires step.Acquire? || step.Remove? || step.Retain?
    ensures Held(Apply(s, step), k, ref, until)
  {
    if step.Remove? { RemoveHeld(s, step.key, step.recordOk, k, ref, until); }
  }

  lemma {:induction false} RemoveHeld(s: Store, j: BlockKey, recordOk: bool, k: BlockKey, ref: SlotRef, until: nat)
    requires Held(s, k, ref, until) && j != k
    ensures Held(AfterRemoveKey(s, j, recordOk), k, ref, until)
  {
  }

  lemma {:induction false} StepHeld(s: Store, step: Step, k: BlockKey, ref: SlotRef, until: nat)
    requires Inv(s) && Enabled(s, step) && Held(s, k, ref, until) && 0 < until && Lets(step, k, until)
    ensures Held(Apply(s, step), k, ref, until)
  {
    if step.Commit? || step.Release? { EndHeld(s, step, k, ref, until); }
    else if Writes(step) { WriteHeld(s, step); }
    else if step.Acquire? || step.Remove? || step.Retain? { UseHeld(s, step, k, ref, until); }
    else { EvictHeld(s, step, k, ref, until); }
  }

  lemma {:induction false} HeldFrom(ss: seq<Store>, steps: seq<Step>, i: nat, n: nat, k: BlockKey, ref: SlotRef,
                                    until: nat)
    requires Execution(ss, steps) && Inv(ss[0]) && i <= n <= |steps| && 0 < until && Held(ss[i], k, ref, until)
    requires forall j :: i <= j < n ==> Lets(steps[j], k, until)
    ensures Held(ss[n], k, ref, until)
  {
    if i < n {
      HeldFrom(ss, steps, i, n - 1, k, ref, until);
      ExecutionKeeps(ss, steps, n - 1);
      RunStep(ss, steps, n - 1);
      StepHeld(ss[n - 1], steps[n - 1], k, ref, until);
    }
  }

  /** Over every run: a key retained until a deadline stays committed on its slot, with a deadline
      no earlier, through every PUT, sweep, reclaim and read, until it is removed or expires. */
  lemma {:induction false} RetainedOutlives(ss: seq<Store>, steps: seq<Step>, i: nat, n: nat, k: BlockKey, until: nat)
    requires Execution(ss, steps) && Inv(ss[0]) && i < n <= |steps| && 0 < until
    requires steps[i].Retain? && steps[i].key == k && steps[i].until == until
    requires forall j :: i < j < n ==> Lets(steps[j], k, until)
    ensures k in ss[i].view && Held(ss[n], k, ss[i].view[k].ref, until)
  {
    RunStep(ss, steps, i);
    HeldFrom(ss, steps, i + 1, n, k, ss[i].view[k].ref, until);
  }
}
