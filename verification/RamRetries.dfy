/** How often a write-back value is tried. The retry counter travels with the value between queue
    and flusher; over every run it is the number of failed writes of that generation, so a value
    is given up exactly after the configured number. */
module RamRetries {
  import opened Types
  import opened RamTier
  import opened RamOwnership
  import opened RemoveFence
  import opened RamAnswers
  import RemovalFinality

  /** The flusher of generation `c` reports a failed write. */
  predicate Misses(s: Tier, step: Step, c: nat) {
    step.FlushDone? && !step.ok && step.o in s.flushes && s.flushes[step.o].gen == c
  }

  /** The failed writes of generation `c` among the first `n` steps. */
  function Missed(trace: seq<Tier>, steps: seq<Step>, n: nat, c: nat): nat
    requires n <= |steps| < |trace|
  {
    if n == 0 then 0
    else Missed(trace, steps, n - 1, c) + if Misses(trace[n - 1], steps[n - 1], c) then 1 else 0
  }

  /** One try is made in any case. */
  function Most(s: Tier): nat {
    if s.retries == 0 then 1 else s.retries
  }

  predicate FlushTried(s: Tier, c: nat, f: nat, o: nat) {
    o in s.flushes && s.flushes[o].gen == c ==> s.flushes[o].tries == f < Most(s)
  }

  /** Queued for a flusher: visible, not written and not with one. */
  predicate Waiting(index: map<BlockKey, Entry>, c: nat, k: BlockKey) {
    k in index && index[k].gen == c && !index[k].durable && !index[k].hidden && !index[k].flushing
  }

  predicate ItemTried(s: Tier, c: nat, f: nat, i: nat) {
    i < |s.queue| && Waiting(s.index, c, s.queue[i].key) ==> s.queue[i].tries == f < Most(s)
  }

  /** Not published yet. */
  predicate Unborn(s: Tier, c: nat) {
    c !in s.completions || (c in s.admissions && (s.admissions[c].phase == Claimed || s.admissions[c].phase == Filling))
  }

  /** Generation `c` has failed `f` times, and its counter says so wherever it is. */
  ghost predicate Tried(s: Tier, c: nat, f: nat) {
    && f <= Most(s) && (Unborn(s, c) ==> f == 0)
    && (forall o :: FlushTried(s, c, f, o))
    && (forall i :: ItemTried(s, c, f, i))
  }

  lemma {:induction false} NotQueued(q: seq<QueueItem>, k: BlockKey, i: nat)
    requires Queued(q, k) == 0 && i < |q|
    ensures q[i].key != k
  {
    if i > 0 { NotQueued(q[1..], k, i - 1); }
  }

  lemma {:induction false} WithoutIn(q: seq<QueueItem>, k: BlockKey, i: nat) returns (j: nat)
    requires i < |Without(q, k)|
    ensures j < |q| && q[j] == Without(q, k)[i]
  {
    if q[0].key == k {
      j := WithoutIn(q[1..], k, i);
      j := j + 1;
    } else if i == 0 {
      j := 0;
    } else {
      j := WithoutIn(q[1..], k, i - 1);
      j := j + 1;
    }
  }

  lemma {:induction false} UnbornBefore(s: Tier, step: Step, c: nat)
    requires Inv(s) && Enabled(s, step) && Unborn(Apply(s, step), c)
    ensures Unborn(s, c)
  {
    StepJudged(s, step, c);
    if !Admits(step) { PartiesKept(s, step); }
  }

  /** No entry of generation `c` starts to wait. */
  predicate NoWait(m: map<BlockKey, Entry>, n: map<BlockKey, Entry>, c: nat, k: BlockKey) {
    Waiting(n, c, k) ==> Waiting(m, c, k)
  }

  lemma {:induction false} HideWaits(s: Tier, j: BlockKey, c: nat, k: BlockKey)
    requires j in s.index
    ensures NoWait(s.index, Hide(s, j).index, c, k)
  {
  }

  lemma {:induction false} UnsentWaits(s: Tier, j: BlockKey, c: nat, k: BlockKey)
    requires j in s.index && s.index[j].sendPins > 0
    ensures NoWait(s.index, Unsent(s, j).index, c, k)
  {
  }

  lemma {:induction false} Remove1Queue(s: Tier, r: nat, j: BlockKey, c: nat, k: BlockKey)
    ensures var u := AfterRemove1(s, r, j);
      NoWait(s.index, u.index, c, k) && (u.queue == s.queue || u.queue == Without(s.queue, j)) && u.retries == s.retries
  {
    var u := AfterRemove1(s, r, j);
    if j in s.index { HideWaits(s, j, c, k); }
    assert u.index == s.index || (j in s.index && u.index == Hide(s, j).index);
  }

  lemma {:induction false} Remove2Queue(s: Tier, r: nat, c: nat, k: BlockKey)
    requires r in s.removers
    ensures var u, j := AfterRemove2(s, r), s.removers[r].key;
      NoWait(s.index, u.index, c, k) && (u.queue == s.queue || u.queue == Without(s.queue, j)) && u.retries == s.retries
  {
    var u, j := AfterRemove2(s, r), s.removers[r].key;
    if j in s.index { HideWaits(s, j, c, k); }
    assert u.index == s.index
      || (j in s.index && (u.index == Settled(s, j, s.index[j], s.arena).index || u.index == Hide(s, j).index));
  }

  /** Steps that neither publish nor touch a flush leave waiting entries and their items. */
  predicate Calm(step: Step) {
    !step.Publish? && !step.Dequeue? && !step.FlushDone? && !step.FlushWrite?
  }

  lemma {:induction false} CalmQueue(s: Tier, step: Step, c: nat, k: BlockKey)
    requires Enabled(s, step) && Calm(step)
    ensures var u := Apply(s, step);
      && NoWait(s.index, u.index, c, k) && u.retries == s.retries && u.flushes == s.flushes
      && (u.queue == s.queue || exists j :: u.queue == Without(s.queue, j))
  {
    match step
    case ReleaseHeld(x) => UnsentWaits(s, s.admissions[x].key, c, k);
    case ReleaseToken(t) => UnsentWaits(s, s.tokens[t].key, c, k);
    case Remove1(r, j) => Remove1Queue(s, r, j, c, k); Remove1Parties(s, r, j);
    case Remove2(r) => Remove2Queue(s, r, c, k); Remove2Parties(s, r);
    case _ =>
  }

  lemma {:induction false} CalmTried(s: Tier, step: Step, c: nat, f: nat)
    requires Inv(s) && Enabled(s, step) && Calm(step) && Tried(s, c, f)
    ensures Tried(Apply(s, step), c, f)
  {
    var u := Apply(s, step);
    if Unborn(u, c) { UnbornBefore(s, step, c); }
    CalmQueue(s, step, c, BlockKey(0, 0, 0));
    forall o ensures FlushTried(u, c, f, o) { assert FlushTried(s, c, f, o); }
    forall i: nat ensures ItemTried(u, c, f, i) {
      if i < |u.queue| {
        CalmQueue(s, step, c, u.queue[i].key);
        if u.queue == s.queue {
          assert ItemTried(s, c, f, i);
        } else {
          var j :| u.queue == Without(s.queue, j);
          var x := WithoutIn(s.queue, j, i);
          assert ItemTried(s, c, f, x);
        }
      }
    }
  }

  lemma {:induction false} PublishedTried(s: Tier, x: nat, c: nat, f: nat)
    requires Inv(s) && Enabled(s, Publish(x)) && Tried(s, c, f) && (x == c ==> f == 0)
    ensures forall o :: FlushTried(Published(s, x), c, f, o)
    ensures forall i :: ItemTried(Published(s, x), c, f, i)
  {
    var u, k := Published(s, x), s.admissions[x].key;
    assert AdmissionOk(s, x) && SlotOk(s, k) && HoldersOk(s, k);
    forall o ensures FlushTried(u, c, f, o) { assert FlushTried(s, c, f, o); }
    forall i: nat ensures ItemTried(u, c, f, i) {
      if i < |s.queue| {
        assert ItemTried(s, c, f, i);
        NotQueued(s.queue, k, i);
      }
    }
  }

  lemma {:induction false} PublishTried(s: Tier, x: nat, c: nat, f: nat)
    requires Inv(s) && Enabled(s, Publish(x)) && Tried(s, c, f)
    ensures Tried(AfterPublish(s, x), c, f)
  {
    var u := AfterPublish(s, x);
    if Unborn(u, c) { UnbornBefore(s, Publish(x), c); }
    if !s.completions[x].canceled {
      PublishedTried(s, x, c, f);
      assert u.retries == s.retries;
    } else {
      assert u.index == s.index && u.queue == s.queue && u.flushes == s.flushes && u.retries == s.retries;
      forall o ensures FlushTried(u, c, f, o) { assert FlushTried(s, c, f, o); }
      forall i ensures ItemTried(u, c, f, i) { assert ItemTried(s, c, f, i); }
    }
  }

  lemma {:induction false} DequeueTried(s: Tier, o: nat, c: nat, f: nat)
    requires Inv(s) && Enabled(s, Dequeue(o)) && Tried(s, c, f)
    ensures Tried(AfterDequeue(s, o), c, f)
  {
    var u, k := AfterDequeue(s, o), s.queue[0].key;
    assert HoldersOk(s, k) && Queued(s.queue, k) > 0;
    assert ItemTried(s, c, f, 0);
    forall x ensures FlushTried(u, c, f, x) { assert FlushTried(s, c, f, x); }
    forall i: nat ensures ItemTried(u, c, f, i) {
      if i < |u.queue| { assert u.queue[i] == s.queue[i + 1] && ItemTried(s, c, f, i + 1); }
    }
  }

  lemma {:induction false} WriteTried(s: Tier, o: nat, c: nat, f: nat)
    requires Enabled(s, FlushWrite(o)) && Tried(s, c, f)
    ensures Tried(AfterFlushWrite(s, o), c, f)
  {
    var u := AfterFlushWrite(s, o);
    forall x ensures FlushTried(u, c, f, x) { assert FlushTried(s, c, f, x); }
    forall i ensures ItemTried(u, c, f, i) { assert ItemTried(s, c, f, i); }
  }

  lemma {:induction false} GenerationHasOneKey(s: Tier, j: BlockKey, k: BlockKey)
    requires EntryOk(s, j) && EntryOk(s, k) && j in s.index && k in s.index && s.index[j].gen == s.index[k].gen
    ensures j == k
  {
  }

  /** What a flusher's report does to the queue and to waiting entries of other keys. */
  lemma {:induction false} FlushQueue(s: Tier, o: nat, ok: bool, c: nat, k: BlockKey)
    requires Inv(s) && Enabled(s, FlushDone(o, ok))
    ensures var u, f := AfterFlush(s, o, ok), s.flushes[o];
      && u.retries == s.retries && u.flushes == s.flushes - {o}
      && (Waiting(u.index, c, k) ==> k in s.index && s.index[k].gen == c && (k != f.key ==> Waiting(s.index, c, k)))
      && (u.queue == s.queue || u.queue == s.queue + [QueueItem(f.key, f.tries + 1)])
      && (Waiting(u.index, c, f.key) ==> !ok && f.tries + 1 < s.retries)
  {
    var u, j := AfterFlush(s, o, ok), s.flushes[o].key;
    Owned(s, o);
    FlushSame(s, j, s.flushes[o].tries + 1, ok, k, 0);
    if k != j { FlushElsewhere(s, o, ok, k); }
    if s.index[j].hidden { assert u.index == FlushRetire(s, j).index && u.queue == s.queue; }
    else if ok { assert u.index == FlushCommit(s, j).index && u.queue == s.queue; }
    else if s.flushes[o].tries + 1 < s.retries { assert u.queue == FlushRetry(s, j, s.flushes[o].tries + 1).queue; }
    else { assert u.index == FlushGiveUp(s, j).index && u.queue == s.queue; }
  }

  lemma {:induction false} FlushDoneTried(s: Tier, o: nat, ok: bool, c: nat, f: nat)
    requires Inv(s) && Enabled(s, FlushDone(o, ok)) && Tried(s, c, f)
    ensures Tried(AfterFlush(s, o, ok), c, f + if Misses(s, FlushDone(o, ok), c) then 1 else 0)
  {
    var u, j := AfterFlush(s, o, ok), s.flushes[o].key;
    var g := f + if Misses(s, FlushDone(o, ok), c) then 1 else 0;
    Owned(s, o);
    assert FlushTried(s, c, f, o) && EntryOk(s, j);
    if Unborn(u, c) { UnbornBefore(s, FlushDone(o, ok), c); }
    FlushQueue(s, o, ok, c, j);
    forall x ensures FlushTried(u, c, g, x) { OtherFlushTried(s, o, ok, c, f, x); }
    forall i: nat ensures ItemTried(u, c, g, i) { FlushItemTried(s, o, ok, c, f, i); }
  }

  lemma {:induction false} OtherFlushTried(s: Tier, o: nat, ok: bool, c: nat, f: nat, x: nat)
    requires Inv(s) && Enabled(s, FlushDone(o, ok)) && FlushTried(s, c, f, x)
    ensures FlushTried(AfterFlush(s, o, ok), c, f + if Misses(s, FlushDone(o, ok), c) then 1 else 0, x)
  {
    FlushQueue(s, o, ok, c, s.flushes[o].key);
    if x in s.flushes && x != o && s.flushes[x].gen == s.flushes[o].gen { NoOtherFlush(s, o, x); }
  }

  lemma {:induction false} FlushItemTried(s: Tier, o: nat, ok: bool, c: nat, f: nat, i: nat)
    requires Inv(s) && Enabled(s, FlushDone(o, ok)) && FlushTried(s, c, f, o) && ItemTried(s, c, f, i)
    ensures ItemTried(AfterFlush(s, o, ok), c, f + if Misses(s, FlushDone(o, ok), c) then 1 else 0, i)
  {
    var u, j := AfterFlush(s, o, ok), s.flushes[o].key;
    Owned(s, o);
    if i < |u.queue| {
      FlushQueue(s, o, ok, c, u.queue[i].key);
      assert EntryOk(s, u.queue[i].key) && EntryOk(s, j);
      if i < |s.queue| { NotQueued(s.queue, j, i); }
    }
  }

  lemma {:induction false} NoOtherFlush(s: Tier, o: nat, x: nat)
    requires Inv(s) && o in s.flushes && x in s.flushes && s.flushes[o].gen == s.flushes[x].gen
    ensures x == o
  {
    assert FlushOk(s, o) && FlushOk(s, x) && EntryOk(s, s.flushes[o].key) && EntryOk(s, s.flushes[x].key);
    RemovalFinality.OnlyFlush(s, o, x);
  }

  /** After the step the counter still is the number of failed writes. */
  ghost predicate TriedNext(s: Tier, step: Step, c: nat, f: nat)
    requires Enabled(s, step)
  {
    Tried(Apply(s, step), c, f + if Misses(s, step, c) then 1 else 0)
  }

  lemma {:induction false} FlusherTried(s: Tier, step: Step, c: nat, f: nat)
    requires Inv(s) && Enabled(s, step) && Tried(s, c, f) && !Calm(step)
    ensures TriedNext(s, step, c, f)
  {
    match step
    case Publish(x) => PublishTried(s, x, c, f);
    case Dequeue(o) => DequeueTried(s, o, c, f);
    case FlushWrite(o) => WriteTried(s, o, c, f);
    case FlushDone(o, ok) => FlushDoneTried(s, o, ok, c, f);
  }

  lemma {:induction false} StepTried(s: Tier, step: Step, c: nat, f: nat)
    requires Inv(s) && Enabled(s, step) && Tried(s, c, f)
    ensures TriedNext(s, step, c, f)
  {
    if Calm(step) { CalmTried(s, step, c, f); } else { FlusherTried(s, step, c, f); }
  }

  lemma {:induction false} RunTried(trace: seq<Tier>, steps: seq<Step>, n: nat, c: nat)
    requires Execution(trace, steps) && Inv(trace[0]) && Tried(trace[0], c, 0) && n < |trace|
    ensures Tried(trace[n], c, Missed(trace, steps, n, c))
  {
    if n > 0 {
      RunTried(trace, steps, n - 1, c);
      ExecutionKeeps(trace, steps, n - 1);
      RunStep(trace, steps, n - 1);
      StepTried(trace[n - 1], steps[n - 1], c, Missed(trace, steps, n - 1, c));
    }
  }

  lemma {:induction false} SameRetries(s: Tier, step: Step)
    requires Enabled(s, step)
    ensures Apply(s, step).retries == s.retries
  {
    if step.FlushDone? {
      OutcomeRetries(s, s.flushes[step.o].key, s.flushes[step.o].tries + 1, step.ok);
    }
  }

  lemma {:induction false} OutcomeRetries(s: Tier, k: BlockKey, tries: nat, ok: bool)
    ensures FlushOutcome(s, k, tries, ok).retries == s.retries
  {
    if k in s.index {
      assert FlushRetire(s, k).retries == s.retries;
      assert FlushGiveUp(s, k).retries == s.retries;
    }
  }

  lemma {:induction false} RetriesFixed(trace: seq<Tier>, steps: seq<Step>, n: nat)
    requires Execution(trace, steps) && n < |trace|
    ensures trace[n].retries == trace[0].retries
  {
    if n > 0 {
      RetriesFixed(trace, steps, n - 1);
      RunStep(trace, steps, n - 1);
      SameRetries(trace[n - 1], steps[n - 1]);
    }
  }

  lemma {:induction false} StartTried(bytes: nat, largeBytes: nat, retries: nat, disk: set<BlockKey>, c: nat)
    ensures Tried(Start(bytes, largeBytes, retries, disk), c, 0)
  {
    var s := Start(bytes, largeBytes, retries, disk);
    forall o ensures FlushTried(s, c, 0, o) { }
    forall i ensures ItemTried(s, c, 0, i) { }
  }

  /** In every run of a new tier no value fails more often than configured. */
  lemma {:induction false} NeverTriedMore(trace: seq<Tier>, steps: seq<Step>, n: nat, c: nat, bytes: nat,
                                          largeBytes: nat, retries: nat, disk: set<BlockKey>)
    requires Execution(trace, steps) && trace[0] == Start(bytes, largeBytes, retries, disk) && n < |trace|
    ensures Missed(trace, steps, n, c) <= if retries == 0 then 1 else retries
  {
    StartOk(bytes, largeBytes, retries, disk);
    StartTried(bytes, largeBytes, retries, disk, c);
    RunTried(trace, steps, n, c);
    RetriesFixed(trace, steps, n);
  }

  /** And not less often either: after a failed write a value that nobody removed stays visible,
      queued again, exactly if it has tries left. */
  lemma {:induction false} GivenUpAtLastTry(trace: seq<Tier>, steps: seq<Step>, n: nat, c: nat, k: BlockKey, bytes: nat,
                                            largeBytes: nat, retries: nat, disk: set<BlockKey>)
    requires Execution(trace, steps) && trace[0] == Start(bytes, largeBytes, retries, disk) && n < |steps|
    requires Misses(trace[n], steps[n], c) && trace[n].flushes[steps[n].o].key == k
    requires k in trace[n].index && !trace[n].index[k].hidden
    ensures var u := trace[n + 1];
      (k in u.index && !u.index[k].hidden && Queued(u.queue, k) == 1) <==> Missed(trace, steps, n, c) + 1 < retries
  {
    StartOk(bytes, largeBytes, retries, disk);
    StartTried(bytes, largeBytes, retries, disk, c);
    RunTried(trace, steps, n, c);
    RetriesFixed(trace, steps, n);
    ExecutionKeeps(trace, steps, n);
    RunStep(trace, steps, n);
    var s, o := trace[n], steps[n].o;
    assert FlushTried(s, c, Missed(trace, steps, n, c), o);
    Owned(s, o);
    if s.flushes[o].tries + 1 < s.retries {
      QueuedAppend(s.queue, QueueItem(k, s.flushes[o].tries + 1), k);
    } else {
      assert trace[n + 1].index == FlushGiveUp(s, k).index;
    }
  }
}
