/** No waiter of the RAM tier is forgotten: as long as a completion has no outcome, its
    generation is being admitted or is in the index, where a flusher will find it. */
module RamWaiters {
  import opened Types
  import Sums
  import opened RamTier
  import opened RamOwnership
  import opened RemoveFence
  import opened RamAnswers

  /** Generation `c` has its answer, or is being admitted, or is in the index. */
  predicate Answerable(s: Tier, c: nat) {
    c in s.completions && !s.completions[c].done ==>
      || c in s.admissions
      || (s.completions[c].key in s.index && s.index[s.completions[c].key].gen == c)
  }

  /** The entry of `k` stays with its generation, or that generation has its answer. */
  predicate KeptOrDone(m: map<BlockKey, Entry>, n: map<BlockKey, Entry>, cs: map<nat, Completion>, k: BlockKey) {
    k in m ==> (k in n && n[k].gen == m[k].gen) || Done(cs, m[k].gen)
  }

  lemma {:induction false} UnsentAnswers(s: Tier, j: BlockKey, k: BlockKey)
    requires EntryOk(s, k) && j in s.index && s.index[j].sendPins > 0
    ensures KeptOrDone(s.index, Unsent(s, j).index, s.completions, k)
  {
  }

  lemma {:induction false} HideAnswers(s: Tier, j: BlockKey, k: BlockKey)
    requires EntryOk(s, k) && j in s.index
    ensures KeptOrDone(s.index, Hide(s, j).index, Hide(s, j).completions, k)
  {
  }

  lemma {:induction false} Remove1Answers(s: Tier, r: nat, j: BlockKey, k: BlockKey)
    requires EntryOk(s, k)
    ensures var u := AfterRemove1(s, r, j); KeptOrDone(s.index, u.index, u.completions, k)
  {
    var u := AfterRemove1(s, r, j);
    if j in s.index { HideAnswers(s, j, k); }
    assert (u.index == s.index)
      || (j in s.index && u.index == Hide(s, j).index && u.completions == Hide(s, j).completions);
  }

  lemma {:induction false} Remove2Answers(s: Tier, r: nat, k: BlockKey)
    requires Enabled(s, Remove2(r)) && EntryOk(s, k)
    ensures var u := AfterRemove2(s, r); KeptOrDone(s.index, u.index, u.completions, k)
  {
    var u, j := AfterRemove2(s, r), s.removers[r].key;
    if j in s.index { HideAnswers(s, j, k); }
    assert (u.index == s.index && u.completions == s.completions)
      || (j in s.index && u.index == Hide(s, j).index && u.completions == Hide(s, j).completions)
      || (j in s.index && s.index[j].hidden && u.completions == s.completions
          && u.index == Settled(s, j, s.index[j], s.arena).index);
  }

  lemma {:induction false} RetireAnswers(s: Tier, j: BlockKey, k: BlockKey)
    requires EntryOk(s, j) && j in s.index
    ensures KeptOrDone(s.index, FlushRetire(s, j).index, FlushRetire(s, j).completions, k)
  {
  }

  lemma {:induction false} GiveUpAnswers(s: Tier, j: BlockKey, k: BlockKey)
    requires EntryOk(s, j) && j in s.index
    ensures KeptOrDone(s.index, FlushGiveUp(s, j).index, FlushGiveUp(s, j).completions, k)
  {
  }

  lemma {:induction false} FlushAnswers(s: Tier, o: nat, ok: bool, k: BlockKey)
    requires Enabled(s, FlushDone(o, ok)) && FlushOk(s, o) && EntryOk(s, s.flushes[o].key)
    ensures var u := AfterFlush(s, o, ok); KeptOrDone(s.index, u.index, u.completions, k)
  {
    var u, j := AfterFlush(s, o, ok), s.flushes[o].key;
    if s.index[j].hidden {
      RetireAnswers(s, j, k);
      assert u.index == FlushRetire(s, j).index && u.completions == FlushRetire(s, j).completions;
    } else if !ok && s.flushes[o].tries + 1 >= s.retries {
      GiveUpAnswers(s, j, k);
      assert u.index == FlushGiveUp(s, j).index && u.completions == FlushGiveUp(s, j).completions;
    }
  }

  lemma {:induction false} EntryAnswers(s: Tier, step: Step, k: BlockKey)
    requires Inv(s) && Enabled(s, step) && !Admits(step)
    ensures KeptOrDone(s.index, Apply(s, step).index, Apply(s, step).completions, k)
  {
    assert EntryOk(s, k);
    match step
    case ReleaseHeld(c) => UnsentAnswers(s, s.admissions[c].key, k);
    case ReleaseToken(t) => UnsentAnswers(s, s.tokens[t].key, k);
    case Remove1(r, j) => Remove1Answers(s, r, j, k);
    case Remove2(r) => Remove2Answers(s, r, k);
    case FlushDone(o, ok) =>
      assert FlushOk(s, o) && EntryOk(s, s.flushes[o].key);
      FlushAnswers(s, o, ok, k);
    case Evict(j) => EvictedIsDurable(s, j);
    case _ =>
  }

  lemma {:induction false} PublishAnswers(s: Tier, x: nat, c: nat)
    requires Inv(s) && Enabled(s, Publish(x)) && Answerable(s, c)
    ensures Answerable(AfterPublish(s, x), c)
  {
    assert AdmissionOk(s, x) && SlotOk(s, s.admissions[x].key);
    assert Answerable(Published(s, x), c);
    assert Answerable(Concealed(s, x), c) && Answerable(Withdrawn(s, x), c);
  }

  lemma {:induction false} AdmissionAnswers(s: Tier, step: Step, c: nat)
    requires Inv(s) && Enabled(s, step) && Admits(step) && Answerable(s, c)
    ensures Answerable(Apply(s, step), c)
  {
    if step.Publish? { PublishAnswers(s, step.c, c); } else { assert AdmissionOk(s, step.c); }
  }

  lemma {:induction false} AdmissionStays(s: Tier, step: Step, c: nat)
    requires Enabled(s, step) && !Admits(step) && c in s.admissions
    ensures c in Apply(s, step).admissions || step == ReleaseHeld(c)
  {
    match step
    case Remove1(r, j) => Remove1Parties(s, r, j);
    case Remove2(r) => Remove2Parties(s, r);
    case FlushDone(o, ok) => FlushSame(s, s.flushes[o].key, s.flushes[o].tries + 1, ok, s.flushes[o].key, 0);
    case _ =>
  }

  /** No step forgets a waiter. */
  lemma {:induction false} StepAnswers(s: Tier, step: Step, c: nat)
    requires Inv(s) && Enabled(s, step) && Answerable(s, c)
    ensures Answerable(Apply(s, step), c)
  {
    if Admits(step) {
      AdmissionAnswers(s, step, c);
    } else {
      StepJudged(s, step, c);
      if c in s.completions {
        assert AdmissionOk(s, c);
        EntryAnswers(s, step, s.completions[c].key);
        if c in s.admissions { AdmissionStays(s, step, c); }
      }
    }
  }

  /** In every run of a new tier every completion without an outcome belongs to a generation that
      is being admitted, or to an entry that is queued once or owned by one flusher. */
  lemma {:induction false} NobodyIsForgotten(trace: seq<Tier>, steps: seq<Step>, n: nat, c: nat, bytes: nat,
                                             largeBytes: nat, retries: nat, disk: set<BlockKey>)
    requires Execution(trace, steps) && trace[0] == Start(bytes, largeBytes, retries, disk) && n < |trace|
    requires c in trace[n].completions && !trace[n].completions[c].done
    ensures var s, k := trace[n], trace[n].completions[c].key;
      || c in s.admissions
      || (k in s.index && s.index[k].gen == c && Queued(s.queue, k) + Sums.Sum(s.flushes, FlushOn(k)) == 1)
  {
    StartOk(bytes, largeBytes, retries, disk);
    RunAnswers(trace, steps, n, c);
    ExecutionKeeps(trace, steps, n);
    var s, k := trace[n], trace[n].completions[c].key;
    assert EntryOk(s, k) && HoldersOk(s, k);
  }

  lemma {:induction false} RunAnswers(trace: seq<Tier>, steps: seq<Step>, n: nat, c: nat)
    requires Execution(trace, steps) && Inv(trace[0]) && Answerable(trace[0], c) && n < |trace|
    ensures Answerable(trace[n], c)
  {
    if n > 0 {
      RunAnswers(trace, steps, n - 1, c);
      ExecutionKeeps(trace, steps, n - 1);
      AnswersNext(trace, steps, n - 1, c);
    }
  }

  lemma {:induction false} AnswersNext(trace: seq<Tier>, steps: seq<Step>, i: nat, c: nat)
    requires Execution(trace, steps) && i < |steps| && Inv(trace[i]) && Answerable(trace[i], c)
    ensures Answerable(trace[i + 1], c)
  {
    RunStep(trace, steps, i);
    StepAnswers(trace[i], steps[i], c);
  }
}
