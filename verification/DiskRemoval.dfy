/** What a removal from the disk store promises over whole runs: nobody can acquire the key
    again until a PUT that was reserved later commits, and when the last hold taken before the
    removal is given back, slot and record are gone. */
module DiskRemoval {
  import opened Types
  import opened Lifecycle
  import opened Sums
  import opened DiskStore
  import opened DiskStoreSafety

  /** Not committed, and a PUT of the key still in flight is one that may not publish it. */
  predicate Barred(s: Store, k: BlockKey) {
    k !in s.committed && (k in s.flights ==> k in s.deferred)
  }

  /** No valid record names the key. */
  ghost predicate Unrecorded(s: Store, k: BlockKey) {
    forall p :: p in s.table && s.table[p].valid ==> s.table[p].key != k
  }

  predicate Reserves(step: Step, k: BlockKey) {
    step.Reserve? && step.key == k
  }

  // ------------------------------------------------------------ one step

  /** A removal that finds its key bars it, or condemns the store. */
  lemma {:induction false} RemoveBars(s: Store, k: BlockKey, recordOk: bool)
    requires Inv(s) && s.healthy && Visible(s.view, k)
    requires Apply(s, Remove(k, recordOk)).healthy
    ensures Barred(Apply(s, Remove(k, recordOk)), k)
  {
    assert KeyOk(s, k);
  }

  lemma {:induction false} ReleaseBarred(s: Store, j: BlockKey, recordOk: bool, k: BlockKey)
    requires Inv(s) && Barred(s, k) && (j == k ==> k !in s.flights)
    ensures Barred(AfterRelease(s, j, recordOk), k)
  {
  }

  lemma {:induction false} CommitBarred(s: Store, t: nat, recordOk: bool, k: BlockKey)
    requires Inv(s) && Barred(s, k) && t in s.writers
    ensures Barred(AfterCommit(s, t, recordOk), k)
  {
    assert WriterOk(s, t);
  }

  /** A key that is read is not being written. */
  lemma {:induction false} ReadNotWritten(s: Store, t: nat)
    requires Inv(s) && t in s.readers
    ensures s.readers[t].key !in s.flights
  {
    assert KeyOk(s, s.readers[t].key);
    ReaderCounted(s, t);
  }

  lemma {:induction false} StepBarred(s: Store, step: Step, k: BlockKey)
    requires Inv(s) && Enabled(s, step) && Barred(s, k) && !Reserves(step, k)
    ensures Barred(Apply(s, step), k)
  {
    if step.Commit? {
      CommitBarred(s, step.t, step.recordOk, k);
    } else if step.Release? {
      ReadNotWritten(s, step.t);
      ReleaseBarred(s, s.readers[step.t].key, step.recordOk, k);
    }
  }

  /** PUT `t` of `k` is in flight and the key is not committed. */
  predicate Pending(s: Store, k: BlockKey, t: nat) {
    k in s.flights && s.flights[k] == t && k !in s.committed
  }

  lemma {:induction false} ReleaseElsewhere(s: Store, j: BlockKey, recordOk: bool, k: BlockKey)
    requires j != k
    ensures var u := AfterRelease(s, j, recordOk); u.flights == s.flights && (k in u.committed <==> k in s.committed)
  {
  }

  lemma {:induction false} CommitElsewhere(s: Store, x: nat, recordOk: bool, k: BlockKey, t: nat)
    requires x in s.writers && s.writers[x].key != k && Pending(s, k, t)
    ensures Pending(AfterCommit(s, x, recordOk), k, t)
  {
    ReleaseElsewhere(s, s.writers[x].key, recordOk, k);
  }

  lemma {:induction false} CommitEnds(s: Store, t: nat, recordOk: bool)
    requires t in s.writers
    ensures var u, k := AfterCommit(s, t, recordOk), s.writers[t].key; k in u.committed || Barred(u, k)
  {
    var k := s.writers[t].key;
    assert k !in AfterCommit(s, t, recordOk).flights;
  }

  lemma {:induction false} ReleasePending(s: Store, j: BlockKey, recordOk: bool, k: BlockKey, t: nat)
    requires Pending(s, k, t)
    ensures Pending(AfterRelease(s, j, recordOk), k, t)
  {
  }

  /** It stays so until it commits, and then the key is committed or barred. */
  lemma {:induction false} StepPending(s: Store, step: Step, k: BlockKey, t: nat)
    requires Inv(s) && Enabled(s, step) && Pending(s, k, t)
    ensures var u := Apply(s, step);
      if step.Commit? && step.t == t then s.writers[t].key == k && (k in u.committed || Barred(u, k))
      else Pending(u, k, t)
  {
    assert KeyOk(s, k);
    if step.Commit? {
      assert WriterOk(s, step.t);
      if step.t == t { CommitEnds(s, t, step.recordOk); } else { CommitElsewhere(s, step.t, step.recordOk, k, t); }
    } else if step.Release? {
      ReleasePending(s, s.readers[step.t].key, step.recordOk, k, t);
    }
  }

  // ------------------------------------------------------------ runs

  lemma {:induction false} HealthyBefore(ss: seq<Store>, steps: seq<Step>, i: nat, n: nat)
    requires Execution(ss, steps) && i <= n <= |steps| && ss[n].healthy
    ensures ss[i].healthy
  {
    if i < n {
      RunStep(ss, steps, n - 1);
      HealthyStep(ss[n - 1], steps[n - 1]);
      HealthyBefore(ss, steps, i, n - 1);
    }
  }

  lemma {:induction false} HealthyStep(s: Store, step: Step)
    requires Enabled(s, step) && Apply(s, step).healthy
    ensures s.healthy
  {
  }

  /** A PUT of `k` reserved at step `h` commits the key at step `j`. */
  ghost predicate Republishes(ss: seq<Store>, steps: seq<Step>, h: nat, j: nat, k: BlockKey)
    requires h < j < |steps| < |ss|
  {
    && Reserves(steps[h], k) && steps[j].Commit? && steps[j].t == steps[h].t
    && steps[j].t in ss[j].writers && ss[j].writers[steps[j].t].key == k
    && k in ss[j + 1].committed
  }

  ghost predicate Republished(ss: seq<Store>, steps: seq<Step>, i: nat, n: nat, k: BlockKey)
    requires n <= |steps| < |ss|
  {
    exists h, j :: i < h < j < n && Republishes(ss, steps, h, j, k)
  }

  /** A PUT of `k` reserved at step `h` is in flight. */
  predicate Renews(ss: seq<Store>, steps: seq<Step>, h: nat, n: nat, k: BlockKey)
    requires h < n <= |steps| < |ss|
  {
    Reserves(steps[h], k) && Pending(ss[n], k, steps[h].t)
  }

  ghost predicate Renewed(ss: seq<Store>, steps: seq<Step>, i: nat, n: nat, k: BlockKey)
    requires n <= |steps| < |ss|
  {
    exists h :: i < h < n && Renews(ss, steps, h, n, k)
  }

  /** Where a removed key can be. */
  ghost predicate Withheld(ss: seq<Store>, steps: seq<Step>, i: nat, n: nat, k: BlockKey)
    requires n <= |steps| < |ss|
  {
    Barred(ss[n], k) || Renewed(ss, steps, i, n, k) || Republished(ss, steps, i, n, k)
  }

  lemma {:induction false} WithheldNext(ss: seq<Store>, steps: seq<Step>, i: nat, n: nat, k: BlockKey)
    requires Execution(ss, steps) && i < n < |steps| && Inv(ss[n]) && Withheld(ss, steps, i, n, k)
    ensures Withheld(ss, steps, i, n + 1, k)
  {
    RunStep(ss, steps, n);
    if Republished(ss, steps, i, n, k) {
      var h, j :| i < h < j < n && Republishes(ss, steps, h, j, k);
      assert Republishes(ss, steps, h, j, k) && j < n + 1;
    } else if Renewed(ss, steps, i, n, k) {
      var h :| i < h < n && Renews(ss, steps, h, n, k);
      StepPending(ss[n], steps[n], k, steps[h].t);
      if steps[n].Commit? && steps[n].t == steps[h].t {
        if k in ss[n + 1].committed { assert Republishes(ss, steps, h, n, k); }
      } else {
        assert Renews(ss, steps, h, n + 1, k);
      }
    } else if Reserves(steps[n], k) {
      assert Renews(ss, steps, n, n + 1, k);
    } else {
      StepBarred(ss[n], steps[n], k);
    }
  }

  lemma {:induction false} WithheldFrom(ss: seq<Store>, steps: seq<Step>, i: nat, n: nat, k: BlockKey)
    requires Execution(ss, steps) && Inv(ss[0]) && i < n <= |steps| && Barred(ss[i + 1], k)
    ensures Withheld(ss, steps, i, n, k)
  {
    if i + 1 < n {
      WithheldFrom(ss, steps, i, n - 1, k);
      ExecutionKeeps(ss, steps, n - 1);
      WithheldNext(ss, steps, i, n - 1, k);
    }
  }

  /** Step `i` removes `k`, which it finds on a healthy store. */
  predicate Removes(ss: seq<Store>, steps: seq<Step>, i: nat, k: BlockKey)
    requires i < |steps| < |ss|
  {
    steps[i].Remove? && steps[i].key == k && ss[i].healthy && Visible(ss[i].view, k)
  }

  lemma {:induction false} BarredByRemoval(ss: seq<Store>, steps: seq<Step>, i: nat, n: nat, k: BlockKey)
    requires Execution(ss, steps) && Inv(ss[0]) && i < n <= |steps| && Removes(ss, steps, i, k) && ss[n].healthy
    ensures Barred(ss[i + 1], k)
  {
    HealthyBefore(ss, steps, i + 1, n);
    ExecutionKeeps(ss, steps, i);
    RunStep(ss, steps, i);
    RemoveBars(ss[i], k, steps[i].recordOk);
  }

  /** After a removal nobody can acquire the key until a PUT reserved after it has committed. */
  lemma {:induction false} RemovedIsUnreadable(ss: seq<Store>, steps: seq<Step>, i: nat, n: nat, k: BlockKey, t: nat)
    requires Execution(ss, steps) && Inv(ss[0]) && i < n <= |steps| && Removes(ss, steps, i, k)
    requires Enabled(ss[n], Acquire(t, k))
    ensures Republished(ss, steps, i, n, k)
  {
    BarredByRemoval(ss, steps, i, n, k);
    WithheldFrom(ss, steps, i, n, k);
  }

  // ------------------------------------------------------------ holders

  lemma {:induction false} SameReaders(s: Store, step: Step)
    requires Enabled(s, step) && !step.Acquire? && !step.Release?
    ensures Apply(s, step).readers == s.readers
  {
    if step.Commit? { CommitFrame(s, step.t, step.recordOk, s.writers[step.t].key); }
  }

  /** Reader `t` of `k` is there after a step on a barred key only if it was there before. */
  lemma {:induction false} ReaderBefore(s: Store, step: Step, k: BlockKey, t: nat)
    requires Enabled(s, step) && Barred(s, k)
    requires var u := Apply(s, step); t in u.readers && u.readers[t].key == k
    ensures t in s.readers && s.readers[t].key == k && !(step.Release? && step.t == t)
  {
    if !step.Acquire? && !step.Release? { SameReaders(s, step); }
  }

  lemma {:induction false} CommitLeaves(s: Store, x: nat, recordOk: bool, k: BlockKey)
    requires x in s.writers && k in AfterCommit(s, x, recordOk).flights
    ensures k in s.flights && AfterCommit(s, x, recordOk).flights[k] == s.flights[k] && s.writers[x].key != k
  {
    assert ReleaseFrame(s, AfterRelease(s, s.writers[x].key, recordOk));
  }

  lemma {:induction false} SameFlights(s: Store, step: Step)
    requires Enabled(s, step) && !step.Reserve? && !step.Commit?
    ensures Apply(s, step).flights == s.flights
  {
    if step.Release? { assert ReleaseFrame(s, AfterRelease(s, s.readers[step.t].key, step.recordOk)); }
  }

  /** So is a PUT in flight, unless the step reserves one. */
  lemma {:induction false} WriterBefore(s: Store, step: Step, k: BlockKey)
    requires Inv(s) && Enabled(s, step) && !Reserves(step, k) && k in Apply(s, step).flights
    ensures k in s.flights && Apply(s, step).flights[k] == s.flights[k] && !(step.Commit? && step.t == s.flights[k])
  {
    if step.Commit? {
      CommitLeaves(s, step.t, step.recordOk, k);
      assert KeyOk(s, k);
    } else if !step.Reserve? {
      SameFlights(s, step);
    }
  }

  ghost predicate NoneReserves(steps: seq<Step>, i: nat, n: nat, k: BlockKey)
    requires n <= |steps|
  {
    forall j :: i < j < n ==> !Reserves(steps[j], k)
  }

  lemma {:induction false} BarredFrom(ss: seq<Store>, steps: seq<Step>, i: nat, n: nat, k: BlockKey)
    requires Execution(ss, steps) && Inv(ss[0]) && i < n <= |steps| && Barred(ss[i + 1], k)
    requires NoneReserves(steps, i, n, k)
    ensures Barred(ss[n], k)
  {
    if i + 1 < n {
      BarredFrom(ss, steps, i, n - 1, k);
      ExecutionKeeps(ss, steps, n - 1);
      RunStep(ss, steps, n - 1);
      StepBarred(ss[n - 1], steps[n - 1], k);
    }
  }

  /** A reader left at the end was there when the key was removed and did not release since. */
  lemma {:induction false} ReaderSince(ss: seq<Store>, steps: seq<Step>, i: nat, n: nat, k: BlockKey, t: nat)
    requires Execution(ss, steps) && Inv(ss[0]) && i < n <= |steps| && Barred(ss[i + 1], k)
    requires NoneReserves(steps, i, n, k) && t in ss[n].readers && ss[n].readers[t].key == k
    ensures t in ss[i + 1].readers && ss[i + 1].readers[t].key == k
    ensures forall j :: i < j < n ==> !(steps[j].Release? && steps[j].t == t)
  {
    if i + 1 < n {
      BarredFrom(ss, steps, i, n - 1, k);
      RunStep(ss, steps, n - 1);
      ReaderBefore(ss[n - 1], steps[n - 1], k, t);
      ReaderSince(ss, steps, i, n - 1, k, t);
    }
  }

  lemma {:induction false} WriterSince(ss: seq<Store>, steps: seq<Step>, i: nat, n: nat, k: BlockKey)
    requires Execution(ss, steps) && Inv(ss[0]) && i < n <= |steps|
    requires NoneReserves(steps, i, n, k) && k in ss[n].flights
    ensures k in ss[i + 1].flights && ss[i + 1].flights[k] == ss[n].flights[k]
    ensures forall j :: i < j < n ==> !(steps[j].Commit? && steps[j].t == ss[n].flights[k])
  {
    if i + 1 < n {
      ExecutionKeeps(ss, steps, n - 1);
      RunStep(ss, steps, n - 1);
      WriterBefore(ss[n - 1], steps[n - 1], k);
      WriterSince(ss, steps, i, n - 1, k);
    }
  }

  /** Every reader and every PUT that held `k` at step `i` has given it back by step `n`. */
  ghost predicate LetGo(ss: seq<Store>, steps: seq<Step>, i: nat, n: nat, k: BlockKey)
    requires i < n <= |steps| < |ss|
  {
    && (forall t :: t in ss[i].readers && ss[i].readers[t].key == k ==>
          exists j :: i < j < n && steps[j].Release? && steps[j].t == t)
    && (forall t :: t in ss[i].writers && ss[i].writers[t].key == k ==>
          exists j :: i < j < n && steps[j].Commit? && steps[j].t == t)
  }

  /** A barred key that is still resident has a holder. */
  lemma {:induction false} ResidentIsHeld(s: Store, k: BlockKey)
    requires Inv(s) && s.healthy && Barred(s, k) && k in s.view
    ensures k in s.flights || exists t :: t in s.readers && s.readers[t].key == k
  {
    assert KeyOk(s, k);
    if k !in s.flights { SomeReader(s.readers, k); }
  }

  lemma {:induction false} SomeReader(readers: map<nat, ReadOp>, k: BlockKey)
    requires Readers(readers, k) > 0
    ensures exists t :: t in readers && readers[t].key == k
  {
    if forall t :: t in readers ==> readers[t].key != k {
      NoReader(readers, k);
    }
  }

  lemma {:induction false} NoReader(readers: map<nat, ReadOp>, k: BlockKey)
    requires forall t :: t in readers ==> readers[t].key != k
    ensures Readers(readers, k) == 0
    decreases |readers|
  {
    if readers != map[] {
      var t :| t in readers;
      SumRemove(readers, t, ReaderOf(k));
      NoReader(readers - {t}, k);
    }
  }

  /** Slot and record of `k` are gone. */
  ghost predicate Vanished(s: Store, k: BlockKey) {
    k !in s.view && Unrecorded(s, k)
  }

  lemma {:induction false} NotResidentVanished(s: Store, k: BlockKey)
    requires Inv(s) && s.healthy && k !in s.view
    ensures Vanished(s, k)
  {
    forall p | p in s.table && s.table[p].valid ensures s.table[p].key != k { assert RecordOk(s, p); }
  }

  lemma {:induction false} VanishedAtLastRelease(ss: seq<Store>, steps: seq<Step>, i: nat, n: nat, k: BlockKey)
    requires Execution(ss, steps) && Inv(ss[0]) && i < n <= |steps| && Removes(ss, steps, i, k) && ss[n].healthy
    requires LetGo(ss, steps, i, n, k) && NoneReserves(steps, i, n, k)
    ensures Vanished(ss[n], k)
  {
    BarredByRemoval(ss, steps, i, n, k);
    BarredFrom(ss, steps, i, n, k);
    ExecutionKeeps(ss, steps, i);
    ExecutionKeeps(ss, steps, n);
    RunStep(ss, steps, i);
    assert KeyOk(ss[i], k);
    if k in ss[n].view {
      ResidentIsHeld(ss[n], k);
      if k in ss[n].flights {
        WriterSince(ss, steps, i, n, k);
      } else {
        var t :| t in ss[n].readers && ss[n].readers[t].key == k;
        ReaderSince(ss, steps, i, n, k, t);
      }
    }
    NotResidentVanished(ss[n], k);
  }

  /** Step `h` reserves `k` anew, when slot and record were gone. */
  ghost predicate ReservedAnew(ss: seq<Store>, steps: seq<Step>, h: nat, k: BlockKey)
    requires h < |steps| < |ss|
  {
    Reserves(steps[h], k) && Vanished(ss[h], k)
  }

  /** When the last hold taken before a removal is given back, slot and record of the key are
      gone, unless the store is condemned; if the key is there again, it was reserved anew after
      they had gone. */
  lemma {:induction false} RemovedIsGone(ss: seq<Store>, steps: seq<Step>, i: nat, n: nat, k: BlockKey)
    requires Execution(ss, steps) && Inv(ss[0]) && i < n <= |steps| && Removes(ss, steps, i, k) && ss[n].healthy
    requires LetGo(ss, steps, i, n, k)
    ensures Vanished(ss[n], k) || exists h :: i < h < n && ReservedAnew(ss, steps, h, k)
  {
    if h :| i < h < n && Reserves(steps[h], k) {
      HealthyBefore(ss, steps, h, n);
      ExecutionKeeps(ss, steps, h);
      RunStep(ss, steps, h);
      NotResidentVanished(ss[h], k);
      assert ReservedAnew(ss, steps, h, k);
    } else {
      VanishedAtLastRelease(ss, steps, i, n, k);
    }
  }
}
