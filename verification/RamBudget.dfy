/** The byte budget of the RAM tier is conserved: at every moment it equals the capacities
    of all entries plus what admissions and canceled reservations still hold, and it never
    passes its limit. The large-value and dirty counters are exact in the same way. */
module RamBudget {
  import opened Types
  import opened Sums
  import opened RamTier
  import opened RamOwnership

  function Cap(): Entry -> int { (e: Entry) => e.cap }

  function LargeCap(): Entry -> int { (e: Entry) => if e.large then e.cap else 0 }

  function DirtyCap(): Entry -> int { (e: Entry) => if e.durable then 0 else e.cap }

  function Dirty(): Entry -> int { (e: Entry) => if e.durable then 0 else 1 }

  /** A claim holds nothing yet, and a published reservation's bytes are its entry's. */
  predicate Holds(a: Admission) {
    a.phase == Filling || a.phase == Hidden || a.phase == Dropping
  }

  function Reserved(): Admission -> int { (a: Admission) => if Holds(a) then a.cap else 0 }

  function LargeReserved(): Admission -> int { (a: Admission) => if Holds(a) && a.large then a.cap else 0 }

  ghost predicate Books(s: Tier) {
    && s.budgetUsed == Sum(s.index, Cap()) + Sum(s.admissions, Reserved())
    && s.largeUsed == Sum(s.index, LargeCap()) + Sum(s.admissions, LargeReserved())
    && s.dirtyBytes == Sum(s.index, DirtyCap())
    && s.dirtyObjects == Sum(s.index, Dirty())
    && s.budgetUsed <= s.bytes
    && s.largeUsed <= s.largeBytes
  }

  /** What a step moves between one entry and one admission is what the counters move by. */
  predicate Moves(s: Tier, u: Tier, k: BlockKey, c: nat) {
    && u.index - {k} == s.index - {k}
    && u.admissions - {c} == s.admissions - {c}
    && u.bytes == s.bytes && u.largeBytes == s.largeBytes
    && u.budgetUsed - s.budgetUsed ==
         At(u.index, k, Cap()) - At(s.index, k, Cap()) + At(u.admissions, c, Reserved()) - At(s.admissions, c,
             Reserved())
    && u.largeUsed - s.largeUsed ==
         At(u.index, k, LargeCap()) - At(s.index, k, LargeCap())
         + At(u.admissions, c, LargeReserved()) - At(s.admissions, c, LargeReserved())
    && u.dirtyBytes - s.dirtyBytes == At(u.index, k, DirtyCap()) - At(s.index, k, DirtyCap())
    && u.dirtyObjects - s.dirtyObjects == At(u.index, k, Dirty()) - At(s.index, k, Dirty())
    && (u.budgetUsed <= s.budgetUsed || u.budgetUsed <= u.bytes)
    && (u.largeUsed <= s.largeUsed || u.largeUsed <= u.largeBytes)
  }

  lemma {:induction false} Balanced(s: Tier, u: Tier, k: BlockKey, c: nat)
    requires Books(s) && Moves(s, u, k, c)
    ensures Books(u)
  {
    SumApart(s.index, u.index, k, Cap());
    SumApart(s.index, u.index, k, LargeCap());
    SumApart(s.index, u.index, k, DirtyCap());
    SumApart(s.index, u.index, k, Dirty());
    SumApart(s.admissions, u.admissions, c, Reserved());
    SumApart(s.admissions, u.admissions, c, LargeReserved());
  }

  lemma {:induction false} PublishMoves(s: Tier, c: nat)
    requires c in s.admissions && s.admissions[c].phase == Filling && s.admissions[c].key !in s.index
    ensures Moves(s, Published(s, c), s.admissions[c].key, c)
  {
  }

  lemma {:induction false} WithdrawMoves(s: Tier, c: nat, k: BlockKey)
    requires c in s.admissions && s.admissions[c].phase == Filling
    ensures Moves(s, Withdrawn(s, c), k, c)
    ensures Moves(s, Concealed(s, c), k, c)
  {
  }

  lemma {:induction false} UnsentMoves(s: Tier, u: Tier, k: BlockKey, c: nat)
    requires k in s.index && s.index[k].sendPins > 0
    requires u == Unsent(s, k).(admissions := u.admissions, tokens := u.tokens)
    requires u.admissions == s.admissions
      || (u.admissions == s.admissions - {c} && (c in s.admissions ==> s.admissions[c].phase == Held))
    ensures Moves(s, u, k, c)
  {
  }

  lemma {:induction false} HideMoves(s: Tier, k: BlockKey, c: nat)
    requires k in s.index
    ensures Moves(s, Hide(s, k), k, c)
  {
  }

  lemma {:induction false} RetireMoves(s: Tier, k: BlockKey, c: nat)
    requires k in s.index
    ensures Moves(s, FlushRetire(s, k), k, c)
  {
  }

  lemma {:induction false} FlushGiveUpMoves(s: Tier, k: BlockKey, c: nat)
    requires k in s.index
    ensures Moves(s, FlushGiveUp(s, k), k, c)
  {
  }

  lemma {:induction false} CommitMoves(s: Tier, k: BlockKey, c: nat)
    requires k in s.index && !s.index[k].durable
    ensures Moves(s, FlushCommit(s, k), k, c)
  {
  }

  lemma {:induction false} RetryMoves(s: Tier, k: BlockKey, tries: nat, c: nat)
    requires k in s.index
    ensures Moves(s, FlushRetry(s, k, tries), k, c)
  {
  }

  lemma {:induction false} ClaimMoves(s: Tier, c: nat, k: BlockKey, cap: nat, large: bool, kind: Kind)
    requires c !in s.admissions
    ensures Moves(s, AfterClaim(s, c, k, cap, large, kind), k, c)
  {
  }

  lemma {:induction false} FillArenaMoves(s: Tier, c: nat, ref: SlotRef, k: BlockKey)
    requires Enabled(s, FillArena(c, ref))
    ensures Moves(s, AfterFillArena(s, c, ref), k, c)
  {
  }

  lemma {:induction false} FillLargeMoves(s: Tier, c: nat, k: BlockKey)
    requires Enabled(s, FillLarge(c))
    ensures Moves(s, AfterFillLarge(s, c), k, c)
  {
  }

  lemma {:induction false} GiveUpMoves(s: Tier, c: nat, k: BlockKey)
    requires Enabled(s, GiveUp(c))
    ensures Moves(s, AfterGiveUp(s, c), k, c)
  {
  }

  lemma {:induction false} ReturnMoves(s: Tier, c: nat, k: BlockKey)
    ensures Enabled(s, Unhide(c)) ==> Moves(s, AfterUnhide(s, c), k, c)
    ensures Enabled(s, Return(c)) ==> Moves(s, AfterReturn(s, c), k, c)
  {
  }

  lemma {:induction false} GetMoves(s: Tier, t: nat, k: BlockKey, c: nat)
    requires Enabled(s, Get(t, k))
    ensures Moves(s, AfterGet(s, t, k), k, c)
  {
  }

  lemma {:induction false} DequeueMoves(s: Tier, o: nat, c: nat)
    requires s.queue != []
    ensures Moves(s, AfterDequeue(s, o), s.queue[0].key, c)
  {
  }

  lemma {:induction false} DropMoves(s: Tier, k: BlockKey, c: nat)
    requires k in s.index && s.index[k].durable
    ensures !s.index[k].large ==> Moves(s, AfterEvict(s, k), k, c)
    ensures s.index[k].large ==> Moves(s, AfterReclaimLarge(s, k), k, c)
  {
  }

  /** Bookkeeping does not look at the parties that hold entries. */
  lemma {:induction false} SameBooks(s: Tier, u: Tier)
    requires Books(s)
    requires u == s.(completions := u.completions, flushes := u.flushes, removers := u.removers, disk := u.disk)
    ensures Books(u)
  {
  }

  lemma {:induction false} FlushDoneBooks(s: Tier, o: nat, ok: bool)
    requires Inv(s) && Books(s) && o in s.flushes
    ensures Books(AfterFlush(s, o, ok))
  {
    var k := s.flushes[o].key;
    var u := AfterFlush(s, o, ok);
    Owned(s, o);
    if s.index[k].hidden {
      RetireMoves(s, k, 0);
      Balanced(s, FlushRetire(s, k), k, 0);
      SameBooks(FlushRetire(s, k), u);
    } else if ok {
      CommitMoves(s, k, 0);
      Balanced(s, FlushCommit(s, k), k, 0);
      SameBooks(FlushCommit(s, k), u);
    } else if s.flushes[o].tries + 1 < s.retries {
      RetryMoves(s, k, s.flushes[o].tries + 1, 0);
      Balanced(s, FlushRetry(s, k, s.flushes[o].tries + 1), k, 0);
      SameBooks(FlushRetry(s, k, s.flushes[o].tries + 1), u);
    } else {
      FlushGiveUpMoves(s, k, 0);
      Balanced(s, FlushGiveUp(s, k), k, 0);
      SameBooks(FlushGiveUp(s, k), u);
    }
  }

  lemma {:induction false} Remove1Books(s: Tier, r: nat, k: BlockKey)
    requires Books(s)
    ensures Books(AfterRemove1(s, r, k))
  {
    var u := AfterRemove1(s, r, k);
    if k in s.writing {
      SameBooks(s, u);
    } else if k in s.index && !s.index[k].hidden {
      HideMoves(s, k, 0);
      Balanced(s, Hide(s, k), k, 0);
      SameBooks(Hide(s, k), u);
    } else {
      SameBooks(s, u);
    }
  }

  lemma {:induction false} Remove2Books(s: Tier, r: nat)
    requires Inv(s) && Books(s) && r in s.removers
    ensures Books(AfterRemove2(s, r))
  {
    var k := s.removers[r].key;
    var u := AfterRemove2(s, r);
    if !(k in s.index && s.index[k].gen == s.removers[r].gen) {
      SameBooks(s, u);
    } else if s.index[k].hidden {
      assert EntryOk(s, k);
      assert s.index[k := s.index[k]] == s.index;
      SameBooks(s, u);
    } else {
      HideMoves(s, k, 0);
      Balanced(s, Hide(s, k), k, 0);
      SameBooks(Hide(s, k), u);
    }
  }

  lemma {:induction false} PublishBooks(s: Tier, c: nat)
    requires Inv(s) && Books(s) && Enabled(s, Publish(c))
    ensures Books(AfterPublish(s, c))
  {
    var k := s.admissions[c].key;
    assert AdmissionOk(s, c) && SlotOk(s, k);
    PublishMoves(s, c);
    WithdrawMoves(s, c, k);
    Balanced(s, AfterPublish(s, c), k, c);
  }

  lemma {:induction false} AdmissionBooks(s: Tier, step: Step)
    requires Inv(s) && Books(s) && Enabled(s, step) && Admits(step)
    ensures Books(Apply(s, step))
  {
    var k := if step.Claim? then step.key else s.admissions[step.c].key;
    match step {
      case Claim(c, _, cap, large, kind) => ClaimMoves(s, c, k, cap, large, kind);
      case FillArena(c, ref) => FillArenaMoves(s, c, ref, k);
      case FillLarge(c) => FillLargeMoves(s, c, k);
      case GiveUp(c) => GiveUpMoves(s, c, k);
      case Publish(c) => PublishBooks(s, c);
      case Abort(c) => WithdrawMoves(s, c, k);
      case Unhide(c) => ReturnMoves(s, c, k);
      case Return(c) => ReturnMoves(s, c, k);
    }
    if !step.Publish? { Balanced(s, Apply(s, step), k, step.c); }
  }

  lemma {:induction false} StepBooks(s: Tier, step: Step)
    requires Inv(s) && Books(s) && Enabled(s, step)
    ensures Books(Apply(s, step))
  {
    var u := Apply(s, step);
    if Admits(step) {
      AdmissionBooks(s, step);
    } else {
      match step
      case ReleaseHeld(c) => UnsentMoves(s, u, s.admissions[c].key, c); Balanced(s, u, s.admissions[c].key, c);
      case Get(t, k) => GetMoves(s, t, k, 0); Balanced(s, u, k, 0);
      case ReleaseToken(t) => UnsentMoves(s, u, s.tokens[t].key, 0); Balanced(s, u, s.tokens[t].key, 0);
      case Remove1(r, k) => Remove1Books(s, r, k);
      case Remove2(r) => Remove2Books(s, r);
      case Dequeue(o) => DequeueMoves(s, o, 0); Balanced(s, u, s.queue[0].key, 0);
      case FlushDone(o, ok) => FlushDoneBooks(s, o, ok);
      case Evict(k) => EvictedIsDurable(s, k); DropMoves(s, k, 0); Balanced(s, u, k, 0);
      case ReclaimLarge(k) => DropMoves(s, k, 0); Balanced(s, u, k, 0);
      case _ => SameBooks(s, u);
    }
  }

  /** In every state of every run the books balance. */
  lemma {:induction false} ExecutionBooks(trace: seq<Tier>, steps: seq<Step>, n: nat)
    requires Execution(trace, steps) && Inv(trace[0]) && Books(trace[0]) && n < |trace|
    ensures Books(trace[n])
  {
    if n > 0 {
      ExecutionBooks(trace, steps, n - 1);
      ExecutionKeeps(trace, steps, n - 1);
      RunStep(trace, steps, n - 1);
      StepBooks(trace[n - 1], steps[n - 1]);
    }
  }

  /** Nothing leaks: in a run of a new tier, whenever every admission has finished and the
      index is empty, every counter is back at zero. */
  lemma {:induction false} IdleIsZero(trace: seq<Tier>, steps: seq<Step>, n: nat, bytes: nat, largeBytes: nat,
                                      retries: nat, disk: set<BlockKey>)
    requires Execution(trace, steps) && n < |trace| && trace[0] == Start(bytes, largeBytes, retries, disk)
    requires trace[n].index == map[] && trace[n].admissions == map[]
    ensures trace[n].budgetUsed == 0 && trace[n].largeUsed == 0 && trace[n].dirtyBytes == 0
      && trace[n].dirtyObjects == 0
  {
    StartOk(bytes, largeBytes, retries, disk);
    assert Books(trace[0]);
    ExecutionBooks(trace, steps, n);
  }
}
