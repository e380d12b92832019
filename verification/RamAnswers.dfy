/** What the answer of a PUT to the RAM tier is worth. Everybody who waits for an admission reads
    the outcome of its completion; over every run of a new tier that outcome is traced back to
    the step that earned it. */
module RamAnswers {
  import opened Types
  import Lifecycle
  import opened RamTier
  import opened RamOwnership
  import opened RemoveFence

  // ------------------------------------------------------------ one step

  /** The publication of a value that needs no flush. */
  predicate Installs(s: Tier, step: Step, c: nat) {
    && step == Publish(c) && c in s.admissions && s.admissions[c].kind != WriteBack
    && c in s.completions && !s.completions[c].canceled
  }

  /** The flusher of generation `c` has written, and its entry is not hidden. */
  predicate Lands(s: Tier, step: Step, c: nat) {
    && step.FlushDone? && step.ok && step.o in s.flushes && s.flushes[step.o].gen == c
    && s.flushes[step.o].key in s.index && !s.index[s.flushes[step.o].key].hidden
  }

  /** A step that completes it with success. */
  predicate Earns(s: Tier, step: Step, c: nat) {
    Installs(s, step, c) || Lands(s, step, c)
  }

  /** A removal hides the entry of generation `c`. */
  predicate Hides(s: Tier, step: Step, c: nat) {
    && step.Remove1? && step.key !in s.writing
    && step.key in s.index && !s.index[step.key].hidden && s.index[step.key].gen == c
  }

  /** A flusher gives the entry of generation `c` up: it is hidden, or out of retries. */
  predicate Abandons(s: Tier, step: Step, c: nat) {
    && step.FlushDone? && step.o in s.flushes && s.flushes[step.o].gen == c
    && var f := s.flushes[step.o];
       (f.key in s.index && s.index[f.key].hidden) || (!step.ok && f.tries + 1 >= s.retries)
  }

  /** A step that completes it without success. */
  predicate Denies(s: Tier, step: Step, c: nat) {
    || step == Return(c) || Hides(s, step, c) || Abandons(s, step, c)
    || (step == Publish(c) && c in s.completions && s.completions[c].canceled)
  }

  /** Completion `c` only gets canceled and done; its outcome is final, and earned or denied by
      this step if it is new. */
  predicate Judged(s: Tier, step: Step, cs: map<nat, Completion>, c: nat) {
    if c in s.completions then
      && c in cs && cs[c].key == s.completions[c].key && (s.completions[c].canceled ==> cs[c].canceled)
      && if s.completions[c].done then cs[c].done && cs[c].success == s.completions[c].success
         else cs[c].done ==> if cs[c].success then Earns(s, step, c) else Denies(s, step, c)
    else c in cs ==> step.Claim? && step.c == c
  }

  lemma {:induction false} Remove1Judged(s: Tier, r: nat, j: BlockKey, c: nat)
    ensures Judged(s, Remove1(r, j), AfterRemove1(s, r, j).completions, c)
  {
    var u := AfterRemove1(s, r, j);
    if j in s.writing { assert u.completions == Cancel(s.completions, s.writing[j]); }
    else if j in s.index && !s.index[j].hidden { assert u.completions == Hide(s, j).completions; }
    else { assert u.completions == s.completions; }
  }

  lemma {:induction false} Remove2Judged(s: Tier, r: nat, c: nat)
    requires Inv(s) && Enabled(s, Remove2(r))
    ensures Judged(s, Remove2(r), AfterRemove2(s, r).completions, c)
  {
    var u, j := AfterRemove2(s, r), s.removers[r].key;
    assert EntryOk(s, j);
    assert u.completions == s.completions;
  }

  lemma {:induction false} FlushJudged(s: Tier, o: nat, ok: bool, c: nat)
    requires Inv(s) && Enabled(s, FlushDone(o, ok))
    ensures Judged(s, FlushDone(o, ok), AfterFlush(s, o, ok).completions, c)
  {
    var u, k := AfterFlush(s, o, ok), s.flushes[o].key;
    assert FlushOk(s, o);
    if s.index[k].hidden { assert u.completions == FlushRetire(s, k).completions; }
    else if ok { assert u.completions == FlushCommit(s, k).completions; }
    else if s.flushes[o].tries + 1 < s.retries { assert u.completions == s.completions; }
    else { assert u.completions == FlushGiveUp(s, k).completions; }
  }

  lemma {:induction false} PublishJudged(s: Tier, c: nat, d: nat)
    requires Enabled(s, Publish(c))
    ensures Judged(s, Publish(c), AfterPublish(s, c).completions, d)
  {
    var u := AfterPublish(s, c);
    if !s.completions[c].canceled { assert u.completions == Published(s, c).completions; }
    else if s.admissions[c].kind == Reservation { assert u.completions == Concealed(s, c).completions; }
    else { assert u.completions == s.completions; }
  }

  lemma {:induction false} AdmissionJudged(s: Tier, step: Step, c: nat)
    requires Enabled(s, step) && Admits(step) && !step.Publish?
    ensures Judged(s, step, Apply(s, step).completions, c)
  {
  }

  lemma {:induction false} StepJudged(s: Tier, step: Step, c: nat)
    requires Inv(s) && Enabled(s, step)
    ensures Judged(s, step, Apply(s, step).completions, c)
  {
    if step.Publish? {
      PublishJudged(s, step.c, c);
    } else if Admits(step) {
      AdmissionJudged(s, step, c);
    } else {
      match step
      case Remove1(r, j) => Remove1Judged(s, r, j, c);
      case Remove2(r) => Remove2Judged(s, r, c);
      case FlushDone(o, ok) => FlushJudged(s, o, ok, c);
      case _ =>
    }
  }

  /** An admission keeps its key and its kind. */
  predicate SameAdmission(s: Tier, u: Tier, c: nat) {
    c in s.completions && c in u.admissions ==>
      c in s.admissions && u.admissions[c].key == s.admissions[c].key && u.admissions[c].kind == s.admissions[c].kind
  }

  /** It is on its way out only if it gave up, was aborted or had been canceled. */
  predicate Leaving(s: Tier, c: nat) {
    c in s.admissions && (s.admissions[c].phase == Dropping || s.admissions[c].phase == Hidden)
  }

  predicate Quits(step: Step, c: nat) {
    step == GiveUp(c) || step == Abort(c)
  }

  lemma {:induction false} PublishLeaves(s: Tier, x: nat, c: nat)
    requires Enabled(s, Publish(x)) && c in s.completions
    ensures SameAdmission(s, AfterPublish(s, x), c)
    ensures Leaving(AfterPublish(s, x), c) ==> Leaving(s, c) || s.completions[c].canceled
  {
    var u := AfterPublish(s, x);
    if !s.completions[x].canceled { assert u.admissions == Published(s, x).admissions; }
    else if s.admissions[x].kind == Reservation { assert u.admissions == Concealed(s, x).admissions; }
    else { assert u.admissions == Withdrawn(s, x).admissions; }
  }

  lemma {:induction false} AdmissionLeaves(s: Tier, step: Step, c: nat)
    requires Enabled(s, step) && Admits(step) && c in s.completions
    ensures SameAdmission(s, Apply(s, step), c)
    ensures Leaving(Apply(s, step), c) ==> Leaving(s, c) || Quits(step, c) || s.completions[c].canceled
  {
    if step.Publish? { PublishLeaves(s, step.c, c); }
  }

  lemma {:induction false} PartiesKept(s: Tier, step: Step)
    requires Enabled(s, step) && !Admits(step)
    ensures forall c :: c in Apply(s, step).admissions ==>
              c in s.admissions && Apply(s, step).admissions[c] == s.admissions[c]
  {
    match step
    case Remove1(r, j) => Remove1Parties(s, r, j);
    case Remove2(r) => Remove2Parties(s, r);
    case FlushDone(o, ok) => FlushSame(s, s.flushes[o].key, s.flushes[o].tries + 1, ok, s.flushes[o].key, 0);
    case _ =>
  }

  lemma {:induction false} StepLeaves(s: Tier, step: Step, c: nat)
    requires Enabled(s, step) && c in s.completions
    ensures SameAdmission(s, Apply(s, step), c)
    ensures Leaving(Apply(s, step), c) ==> Leaving(s, c) || Quits(step, c) || s.completions[c].canceled
  {
    if Admits(step) { AdmissionLeaves(s, step, c); } else { PartiesKept(s, step); }
  }

  // ------------------------------------------------------------ runs

  /** Generation `c` is claimed for `k` at step `h`. */
  predicate ClaimedAt(steps: seq<Step>, h: nat, c: nat, k: BlockKey, kind: Kind)
    requires h < |steps|
  {
    steps[h].Claim? && steps[h].c == c && steps[h].key == k && steps[h].kind == kind
  }

  /** From its claim on, a generation has its completion, its key and its kind. */
  lemma {:induction false} ClaimStays(trace: seq<Tier>, steps: seq<Step>, h: nat, n: nat, c: nat, k: BlockKey,
                                      kind: Kind)
    requires Execution(trace, steps) && Inv(trace[0]) && h < n < |trace| && ClaimedAt(steps, h, c, k, kind)
    ensures c in trace[n].completions && trace[n].completions[c].key == k
    ensures c in trace[n].admissions ==> trace[n].admissions[c].key == k && trace[n].admissions[c].kind == kind
  {
    if n == h + 1 {
      RunStep(trace, steps, h);
    } else {
      ClaimStays(trace, steps, h, n - 1, c, k, kind);
      ExecutionKeeps(trace, steps, n - 1);
      RunStep(trace, steps, n - 1);
      StepJudged(trace[n - 1], steps[n - 1], c);
      StepLeaves(trace[n - 1], steps[n - 1], c);
    }
  }

  lemma {:induction false} CompletionStays(trace: seq<Tier>, steps: seq<Step>, i: nat, n: nat, c: nat)
    requires Execution(trace, steps) && Inv(trace[0]) && i <= n < |trace| && c in trace[i].completions
    ensures c in trace[n].completions && (trace[i].completions[c].canceled ==> trace[n].completions[c].canceled)
    ensures trace[i].completions[c].done ==>
      trace[n].completions[c].done && trace[n].completions[c].success == trace[i].completions[c].success
    decreases n - i
  {
    if i < n {
      CompletionStays(trace, steps, i, n - 1, c);
      ExecutionKeeps(trace, steps, n - 1);
      RunStep(trace, steps, n - 1);
      StepJudged(trace[n - 1], steps[n - 1], c);
    }
  }

  /** Nobody knows a generation before it is claimed. */
  lemma {:induction false} UnknownBefore(trace: seq<Tier>, steps: seq<Step>, h: nat, j: nat, c: nat, k: BlockKey,
                                         kind: Kind)
    requires Execution(trace, steps) && Inv(trace[0]) && h < |steps| && ClaimedAt(steps, h, c, k, kind) && j <= h
    ensures c !in trace[j].completions
  {
    RunStep(trace, steps, h);
    if c in trace[j].completions { CompletionStays(trace, steps, j, h, c); }
  }

  /** Step `j` decided the outcome of `c`. */
  predicate DecidedAt(trace: seq<Tier>, steps: seq<Step>, j: nat, c: nat, success: bool)
    requires j < |steps| < |trace|
  {
    if success then Earns(trace[j], steps[j], c) else Denies(trace[j], steps[j], c)
  }

  lemma {:induction false} Decided(trace: seq<Tier>, steps: seq<Step>, h: nat, n: nat, c: nat, k: BlockKey, kind: Kind)
    returns (j: nat)
    requires Execution(trace, steps) && Inv(trace[0]) && h < n < |trace| && ClaimedAt(steps, h, c, k, kind)
    requires c in trace[n].completions && trace[n].completions[c].done
    ensures h < j < n && DecidedAt(trace, steps, j, c, trace[n].completions[c].success)
  {
    RunStep(trace, steps, h);
    ClaimStays(trace, steps, h, n, c, k, kind);
    assert !trace[h + 1].completions[c].done;
    j := n - 1;
    ClaimStays(trace, steps, h, j, c, k, kind);
    ExecutionKeeps(trace, steps, j);
    RunStep(trace, steps, j);
    StepJudged(trace[j], steps[j], c);
    if trace[j].completions[c].done { j := Decided(trace, steps, h, j, c, k, kind); }
  }

  /** Step `j` writes generation `c` of `k` to the disk. */
  predicate WritesAt(trace: seq<Tier>, steps: seq<Step>, j: nat, c: nat, k: BlockKey)
    requires j < |steps| < |trace|
  {
    && steps[j].FlushWrite? && steps[j].o in trace[j].flushes
    && trace[j].flushes[steps[j].o].gen == c && trace[j].flushes[steps[j].o].key == k
    && k in trace[j + 1].disk
  }

  /** A flush is marked as written only by its write. */
  lemma {:induction false} StepWritten(s: Tier, step: Step, o: nat)
    requires Enabled(s, step)
    requires var u := Apply(s, step); o in u.flushes && u.flushes[o].written
    ensures o in s.flushes && s.flushes[o].gen == Apply(s, step).flushes[o].gen
      && s.flushes[o].key == Apply(s, step).flushes[o].key && (s.flushes[o].written || step == FlushWrite(o))
  {
    match step
    case ReleaseHeld(c) => UnsentSame(s, Apply(s, step), s.admissions[c].key, s.admissions[c].key, 0);
    case ReleaseToken(t) => UnsentSame(s, Apply(s, step), s.tokens[t].key, s.tokens[t].key, 0);
    case Remove1(r, j) => Remove1Parties(s, r, j);
    case Remove2(r) => Remove2Parties(s, r);
    case FlushDone(x, ok) => FlushSame(s, s.flushes[x].key, s.flushes[x].tries + 1, ok, s.flushes[x].key, 0);
    case _ =>
  }

  lemma {:induction false} WrittenBefore(trace: seq<Tier>, steps: seq<Step>, n: nat, o: nat) returns (j: nat)
    requires Execution(trace, steps) && trace[0].flushes == map[] && n < |trace|
    requires o in trace[n].flushes && trace[n].flushes[o].written
    ensures j < n && WritesAt(trace, steps, j, trace[n].flushes[o].gen, trace[n].flushes[o].key)
  {
    j := n - 1;
    RunStep(trace, steps, j);
    StepWritten(trace[j], steps[j], o);
    if trace[j].flushes[o].written { j := WrittenBefore(trace, steps, j, o); }
  }

  // ------------------------------------------------------------ what an answer means

  /** A write-back PUT that is answered success was written to the disk by its flusher before. */
  lemma {:induction false} SuccessIsDurable(trace: seq<Tier>, steps: seq<Step>, h: nat, n: nat, c: nat, k: BlockKey,
                                            bytes: nat, largeBytes: nat, retries: nat, disk: set<BlockKey>)
    requires Execution(trace, steps) && trace[0] == Start(bytes, largeBytes, retries, disk)
    requires h < n < |trace| && ClaimedAt(steps, h, c, k, WriteBack)
    requires c in trace[n].completions && trace[n].completions[c].done && trace[n].completions[c].success
    ensures exists j, i :: h < j < i < n && WritesAt(trace, steps, j, c, k) && Lands(trace[i], steps[i], c)
  {
    StartOk(bytes, largeBytes, retries, disk);
    var i := Decided(trace, steps, h, n, c, k, WriteBack);
    ClaimStays(trace, steps, h, i, c, k, WriteBack);
    RunStep(trace, steps, i);
    ExecutionKeeps(trace, steps, i);
    FlushedGeneration(trace[i], steps[i].o);
    var j := WrittenBefore(trace, steps, i, steps[i].o);
    if j <= h {
      ExecutionKeeps(trace, steps, j);
      FlushedGeneration(trace[j], steps[j].o);
      UnknownBefore(trace, steps, h, j, c, k, WriteBack);
    }
    assert WritesAt(trace, steps, j, c, k);
  }

  lemma {:induction false} FlushedGeneration(s: Tier, o: nat)
    requires Inv(s) && o in s.flushes
    ensures var f := s.flushes[o]; f.gen in s.completions && s.completions[f.gen].key == f.key
  {
    assert FlushOk(s, o) && EntryOk(s, s.flushes[o].key);
  }

  /** Why step `j` may leave generation `c` without success: it gave up for lack of memory, its
      reservation was aborted, a removal hid it, or its flusher found it hidden or ran out of
      retries. */
  predicate ExcusedAt(trace: seq<Tier>, steps: seq<Step>, j: nat, c: nat)
    requires j < |steps| < |trace|
  {
    Quits(steps[j], c) || Hides(trace[j], steps[j], c) || Abandons(trace[j], steps[j], c)
  }

  lemma {:induction false} LeavingHasQuit(trace: seq<Tier>, steps: seq<Step>, h: nat, n: nat, c: nat, k: BlockKey,
                                          kind: Kind)
    requires Execution(trace, steps) && Inv(trace[0]) && h < n < |trace| && ClaimedAt(steps, h, c, k, kind)
    requires Leaving(trace[n], c)
    ensures c in trace[n].completions
    ensures trace[n].completions[c].canceled || exists j :: h < j < n && ExcusedAt(trace, steps, j, c)
  {
    if n == h + 1 {
      RunStep(trace, steps, h);
    } else {
      ClaimStays(trace, steps, h, n - 1, c, k, kind);
      LeavesNext(trace, steps, n - 1, c);
      if Leaving(trace[n - 1], c) {
        LeavingHasQuit(trace, steps, h, n - 1, c, k, kind);
      } else if Quits(steps[n - 1], c) {
        assert ExcusedAt(trace, steps, n - 1, c);
      }
    }
  }

  lemma {:induction false} LeavesNext(trace: seq<Tier>, steps: seq<Step>, i: nat, c: nat)
    requires Execution(trace, steps) && Inv(trace[0]) && i < |steps| && c in trace[i].completions
    ensures c in trace[i + 1].completions
    ensures trace[i].completions[c].canceled ==> trace[i + 1].completions[c].canceled
    ensures Leaving(trace[i + 1], c) ==> Leaving(trace[i], c) || Quits(steps[i], c) || trace[i].completions[c].canceled
  {
    CompletionStays(trace, steps, i, i + 1, c);
    RunStep(trace, steps, i);
    StepLeaves(trace[i], steps[i], c);
  }

  /** An admission that is answered without success was canceled or has an excuse. */
  lemma {:induction false} FailureIsExcused(trace: seq<Tier>, steps: seq<Step>, h: nat, n: nat, c: nat, k: BlockKey,
                                            kind: Kind, bytes: nat, largeBytes: nat, retries: nat, disk: set<BlockKey>)
    requires Execution(trace, steps) && trace[0] == Start(bytes, largeBytes, retries, disk)
    requires h < n < |trace| && ClaimedAt(steps, h, c, k, kind)
    requires c in trace[n].completions && trace[n].completions[c].done && !trace[n].completions[c].success
    ensures trace[n].completions[c].canceled || exists j :: h < j < n && ExcusedAt(trace, steps, j, c)
  {
    StartOk(bytes, largeBytes, retries, disk);
    var i := Decided(trace, steps, h, n, c, k, kind);
    ClaimStays(trace, steps, h, i, c, k, kind);
    CompletionStays(trace, steps, i, n, c);
    RunStep(trace, steps, i);
    if steps[i] == Return(c) {
      LeavingHasQuit(trace, steps, h, i, c, k, kind);
    } else if !trace[i].completions[c].canceled {
      assert ExcusedAt(trace, steps, i, c);
    }
  }

  /** An entry of generation `c` was in the index before, or the step publishes it. */
  lemma {:induction false} EntryBefore(s: Tier, step: Step, c: nat, k: BlockKey)
    requires Enabled(s, step) && k in Apply(s, step).index && Apply(s, step).index[k].gen == c
    ensures (k in s.index && s.index[k].gen == c)
      || (step == Publish(c) && c in s.admissions && c in s.completions && !s.completions[c].canceled)
  {
    if !step.Publish? && !step.Claim? { StepFrame(s, step, k, c); }
  }

  lemma {:induction false} InstallCompletes(s: Tier, c: nat)
    requires Enabled(s, Publish(c)) && !s.completions[c].canceled && s.admissions[c].kind != WriteBack
    ensures var d := AfterPublish(s, c).completions; c in d && d[c].done && (!s.completions[c].done ==> d[c].success)
  {
  }

  /** A promoted value is in the index only when its completion is done. */
  lemma {:induction false} InstalledIsDone(trace: seq<Tier>, steps: seq<Step>, h: nat, n: nat, c: nat, k: BlockKey,
                                           kind: Kind)
    requires Execution(trace, steps) && Inv(trace[0]) && h < n < |trace| && ClaimedAt(steps, h, c, k, kind)
    requires kind != WriteBack && k in trace[n].index && trace[n].index[k].gen == c
    ensures Done(trace[n].completions, c)
  {
    RunStep(trace, steps, n - 1);
    ClaimStays(trace, steps, h, n, c, k, kind);
    EntryBefore(trace[n - 1], steps[n - 1], c, k);
    if n > h + 1 {
      ClaimStays(trace, steps, h, n - 1, c, k, kind);
      if k in trace[n - 1].index && trace[n - 1].index[k].gen == c {
        InstalledIsDone(trace, steps, h, n - 1, c, k, kind);
        CompletionStays(trace, steps, n - 1, n, c);
      } else {
        InstallCompletes(trace[n - 1], c);
      }
    }
  }

  /** Step `j` publishes generation `c`, which nobody has canceled. */
  predicate PublishedAt(trace: seq<Tier>, steps: seq<Step>, j: nat, c: nat)
    requires j < |steps| < |trace|
  {
    steps[j] == Publish(c) && c in trace[j].completions && !trace[j].completions[c].canceled
  }

  /** A promotion or a reservation is answered success exactly if it was published. */
  lemma {:induction false} PromotedIfPublished(trace: seq<Tier>, steps: seq<Step>, h: nat, n: nat, c: nat, k: BlockKey,
                                               kind: Kind, bytes: nat, largeBytes: nat, retries: nat,
                                               disk: set<BlockKey>)
    requires Execution(trace, steps) && trace[0] == Start(bytes, largeBytes, retries, disk)
    requires h < n < |trace| && ClaimedAt(steps, h, c, k, kind) && kind != WriteBack
    ensures c in trace[n].completions
    ensures trace[n].completions[c].done && trace[n].completions[c].success
      <==> exists j :: h < j < n && PublishedAt(trace, steps, j, c)
  {
    StartOk(bytes, largeBytes, retries, disk);
    ClaimStays(trace, steps, h, n, c, k, kind);
    if j :| h < j < n && PublishedAt(trace, steps, j, c) {
      RunStep(trace, steps, j);
      ExecutionKeeps(trace, steps, j);
      ClaimStays(trace, steps, h, j, c, k, kind);
      assert AdmissionOk(trace[j], c);
      InstallCompletes(trace[j], c);
      CompletionStays(trace, steps, j + 1, n, c);
    } else if trace[n].completions[c].done && trace[n].completions[c].success {
      var i := Decided(trace, steps, h, n, c, k, kind);
      NotLanded(trace, steps, h, i, c, k, kind);
      assert PublishedAt(trace, steps, i, c);
    }
  }

  lemma {:induction false} NotLanded(trace: seq<Tier>, steps: seq<Step>, h: nat, i: nat, c: nat, k: BlockKey,
                                     kind: Kind)
    requires Execution(trace, steps) && Inv(trace[0]) && h < i < |steps| && ClaimedAt(steps, h, c, k, kind)
    requires kind != WriteBack
    ensures !Lands(trace[i], steps[i], c)
  {
    if Lands(trace[i], steps[i], c) {
      ExecutionKeeps(trace, steps, i);
      ClaimStays(trace, steps, h, i, c, k, kind);
      var o := steps[i].o;
      assert FlushOk(trace[i], o) && EntryOk(trace[i], trace[i].flushes[o].key);
      InstalledIsDone(trace, steps, h, i, c, k, kind);
    }
  }
}
