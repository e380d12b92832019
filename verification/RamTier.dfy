/** The RAM tier: a write-back cache in front of the disk group. Values are published in
    `index`, queued for a flusher and evictable once durable; readers hold send pins,
    promotions hold hidden reservations, removals hide first and wait for the flusher.
    Each function below is one critical section (or one atomic budget operation) of one
    actor; actors interleave freely. */
module RamTier {
  import opened Types
  import opened Lifecycle
  import opened Sums

  /** A published value. `gen` identifies its PutCompletion and thereby its generation. */
  datatype Entry = Entry(
    gen: nat, cap: nat, large: bool, sendPins: nat,
    durable: bool, flushing: bool, flushPin: bool, hidden: bool)

  /** Outcome of one admission of `key`, shared by its PUT, its duplicates and its removers. */
  datatype Completion = Completion(key: BlockKey, done: bool, success: bool, canceled: bool)

  datatype Kind = WriteBack | Promote | Reservation

  /** Claimed: owns `writing`, no memory yet. Filling: memory reserved, bytes being copied or
      read. Held: a published reservation still holding its pin. Hidden: a reservation
      canceled while it was being filled. Dropping: only the byte budget is left to return. */
  datatype Phase = Claimed | Filling | Held | Hidden | Dropping

  datatype Admission = Admission(key: BlockKey, cap: nat, large: bool, kind: Kind, phase: Phase)

  datatype QueueItem = QueueItem(key: BlockKey, tries: nat)

  /** A flusher's exclusive ownership of one dequeued entry. */
  datatype Flush = Flush(key: BlockKey, gen: nat, tries: nat, written: bool)

  datatype Token = Token(key: BlockKey, gen: nat)

  /** A removal between its first critical section and its disk removal. */
  datatype Remover = Remover(key: BlockKey, gen: nat, waiting: bool, had: bool)

  datatype Tier = Tier(
    bytes: nat, largeBytes: nat, retries: nat,
    index: map<BlockKey, Entry>,
    writing: map<BlockKey, nat>,
    queue: seq<QueueItem>,
    completions: map<nat, Completion>,
    arena: View,
    admissions: map<nat, Admission>,
    flushes: map<nat, Flush>,
    tokens: map<nat, Token>,
    removers: map<nat, Remover>,
    disk: set<BlockKey>,
    budgetUsed: int, largeUsed: int, dirtyBytes: int, dirtyObjects: int)

  // ------------------------------------------------------------ helpers

  /** Completing twice keeps the first outcome. */
  function Complete(cs: map<nat, Completion>, c: nat, success: bool): map<nat, Completion> {
    if c !in cs || cs[c].done then cs else cs[c := cs[c].(done := true, success := success)]
  }

  function Unpinned1(v: View, k: BlockKey): View {
    if k in v && v[k].refs > 0 then AfterUnpin(v, k) else v
  }

  function Freed(v: View, k: BlockKey): View {
    if k in v then AfterRemove(v, k) else v
  }

  function Without(q: seq<QueueItem>, k: BlockKey): seq<QueueItem> {
    if q == [] then []
    else if q[0].key == k then Without(q[1..], k)
    else [q[0]] + Without(q[1..], k)
  }

  /** Stores the changed entry of `k`, or drops it once it is hidden and nobody holds it:
      the slot is freed and its bytes return to the budget. */
  function Settled(s: Tier, k: BlockKey, e: Entry, arena: View): Tier {
    var drop := e.hidden && e.sendPins == 0 && !e.flushing;
    s.(index := if drop then s.index - {k} else s.index[k := e],
       arena := if drop && !e.large then Freed(arena, k) else arena,
       budgetUsed := if drop then s.budgetUsed - e.cap else s.budgetUsed,
       largeUsed := if drop && e.large then s.largeUsed - e.cap else s.largeUsed,
       dirtyBytes := if drop && !e.durable then s.dirtyBytes - e.cap else s.dirtyBytes,
       dirtyObjects := if drop && !e.durable then s.dirtyObjects - 1 else s.dirtyObjects)
  }

  /** The arena after a pin of entry `e` is given back. */
  function UnpinnedFor(s: Tier, k: BlockKey, e: Entry, wanted: bool): View {
    if wanted && !e.large then Unpinned1(s.arena, k) else s.arena
  }

  // ------------------------------------------------------------ admission

  function AfterClaim(s: Tier, c: nat, k: BlockKey, cap: nat, large: bool, kind: Kind): Tier {
    s.(writing := s.writing[k := c],
       completions := s.completions[c := Completion(k, false, false, false)],
       admissions := s.admissions[c := Admission(k, cap, large, kind, Claimed)])
  }

  /** The allocator found a slot, it was pinned and its size fits the byte budget. */
  function AfterFillArena(s: Tier, c: nat, ref: SlotRef): Tier
    requires c in s.admissions
  {
    var a := s.admissions[c];
    s.(arena := s.arena[a.key := Resident(ref, 1, false, 0)],
       budgetUsed := s.budgetUsed + ref.size,
       admissions := s.admissions[c := a.(cap := ref.size, phase := Filling)])
  }

  function AfterFillLarge(s: Tier, c: nat): Tier
    requires c in s.admissions
  {
    var a := s.admissions[c];
    s.(budgetUsed := s.budgetUsed + a.cap,
       largeUsed := s.largeUsed + a.cap,
       admissions := s.admissions[c := a.(phase := Filling)])
  }

  /** No memory: give up the claim. */
  function AfterGiveUp(s: Tier, c: nat): Tier
    requires c in s.admissions
  {
    var a := s.admissions[c];
    s.(writing := s.writing - {a.key},
       admissions := s.admissions[c := a.(cap := 0, phase := Dropping)])
  }

  /** The value becomes visible. A write-back value is queued for flushing and keeps the
      flush pin; a promoted one is born durable; a reservation keeps its pin for the reply. */
  function Published(s: Tier, c: nat): Tier
    requires c in s.admissions
  {
    var a := s.admissions[c];
    var k := a.key;
    s.(writing := s.writing - {k},
       index := s.index[k := Entry(c, a.cap, a.large, if a.kind == Reservation then 1 else 0,
                                   a.kind != WriteBack, false, a.kind == WriteBack, false)],
       queue := if a.kind == WriteBack then s.queue + [QueueItem(k, 0)] else s.queue,
       dirtyBytes := if a.kind == WriteBack then s.dirtyBytes + a.cap else s.dirtyBytes,
       dirtyObjects := if a.kind == WriteBack then s.dirtyObjects + 1 else s.dirtyObjects,
       completions := if a.kind == WriteBack then s.completions else Complete(s.completions, c, true),
       arena := if a.kind == Promote && !a.large then Unpinned1(s.arena, k) else s.arena,
       admissions := if a.kind == Reservation then s.admissions[c := a.(phase := Held)] else s.admissions - {c})
  }

  /** The admission is undone before publication: canceled by a removal, or its reservation
      destroyed. Only its budget is left to return. */
  function Withdrawn(s: Tier, c: nat): Tier
    requires c in s.admissions
  {
    var a := s.admissions[c];
    s.(writing := s.writing - {a.key},
       arena := if a.large then s.arena else Freed(Unpinned1(s.arena, a.key), a.key),
       admissions := s.admissions[c := a.(phase := Dropping)])
  }

  /** A canceled reservation stays pinned for the reply being sent from it. */
  function Concealed(s: Tier, c: nat): Tier
    requires c in s.admissions
  {
    var a := s.admissions[c];
    s.(writing := s.writing - {a.key},
       arena := Freed(s.arena, a.key),
       completions := Complete(s.completions, c, false),
       admissions := s.admissions[c := a.(phase := Hidden)])
  }

  /** Publication and the cancellation check are one critical section. */
  function AfterPublish(s: Tier, c: nat): Tier
    requires c in s.admissions && c in s.completions
  {
    if !s.completions[c].canceled then Published(s, c)
    else if s.admissions[c].kind == Reservation then Concealed(s, c)
    else Withdrawn(s, c)
  }

  /** A canceled reservation lets go of its slot: the last unpin frees it. */
  function AfterUnhide(s: Tier, c: nat): Tier
    requires c in s.admissions
  {
    var a := s.admissions[c];
    s.(arena := Unpinned1(s.arena, a.key),
       admissions := s.admissions[c := a.(phase := Dropping)])
  }

  /** Returns the reserved bytes and reports the failure to everybody waiting. */
  function AfterReturn(s: Tier, c: nat): Tier
    requires c in s.admissions
  {
    var a := s.admissions[c];
    s.(budgetUsed := s.budgetUsed - a.cap,
       largeUsed := if a.large then s.largeUsed - a.cap else s.largeUsed,
       completions := Complete(s.completions, c, false),
       admissions := s.admissions - {c})
  }

  // ------------------------------------------------------------ reads

  function AfterGet(s: Tier, t: nat, k: BlockKey): Tier
    requires k in s.index && (!s.index[k].large ==> k in s.arena)
  {
    var e := s.index[k];
    s.(index := s.index[k := e.(sendPins := e.sendPins + 1)],
       arena := if e.large then s.arena else AfterPin(s.arena, k),
       tokens := s.tokens[t := Token(k, e.gen)])
  }

  /** One send pin of `k` less, by a token or by a published reservation. */
  function Unsent(s: Tier, k: BlockKey): Tier
    requires k in s.index && s.index[k].sendPins > 0
  {
    var e := s.index[k];
    Settled(s, k, e.(sendPins := e.sendPins - 1), UnpinnedFor(s, k, e, true))
  }

  // ------------------------------------------------------------ removal

  /** Hides the entry of `k`; unless a flusher owns it, its flush pin and its waiters go. */
  function Hide(s: Tier, k: BlockKey): Tier
    requires k in s.index
  {
    var e := s.index[k];
    var idle := !e.flushing;
    Settled(s, k, e.(hidden := true, flushPin := e.flushPin && !idle), UnpinnedFor(s, k, e, idle && e.flushPin)).(
      queue := Without(s.queue, k),
      completions := if idle && !e.durable then Complete(s.completions, e.gen, false) else s.completions)
  }

  function Cancel(cs: map<nat, Completion>, c: nat): map<nat, Completion> {
    if c in cs then cs[c := cs[c].(canceled := true)] else cs
  }

  /** First critical section: cancel the admission in progress, or hide the entry. */
  function AfterRemove1(s: Tier, r: nat, k: BlockKey): Tier {
    var live := k in s.index && !s.index[k].hidden;
    (if k in s.writing then s.(completions := Cancel(s.completions, s.writing[k]))
     else if live then Hide(s, k)
     else s).(removers := s.removers[r :=
       if k in s.writing then Remover(k, s.writing[k], true, true)
       else if live then Remover(k, s.index[k].gen, true, true)
       else Remover(k, 0, false, false)])
  }

  /** Second critical section, after the completion: clean up the removed generation only. */
  function AfterRemove2(s: Tier, r: nat): Tier
    requires r in s.removers
  {
    var m := s.removers[r];
    var mine := m.key in s.index && s.index[m.key].gen == m.gen;
    (if !mine then s
     else if !s.index[m.key].hidden then Hide(s, m.key)
     else Settled(s, m.key, s.index[m.key], s.arena)).(removers := s.removers[r := m.(waiting := false)])
  }

  /** The disk removal that follows the RAM fence. */
  function AfterRemove3(s: Tier, r: nat): Tier
    requires r in s.removers
  {
    s.(disk := s.disk - {s.removers[r].key}, removers := s.removers - {r})
  }

  // ------------------------------------------------------------ flushing

  /** Dequeue and ownership are one critical section. */
  function AfterDequeue(s: Tier, o: nat): Tier
    requires s.queue != []
  {
    var q := s.queue[0];
    var take := q.key in s.index && !s.index[q.key].durable && !s.index[q.key].hidden;
    s.(queue := s.queue[1..],
       index := if take then s.index[q.key := s.index[q.key].(flushing := true)] else s.index,
       flushes := if take then s.flushes[o := Flush(q.key, s.index[q.key].gen, q.tries, false)] else s.flushes)
  }

  function AfterFlushWrite(s: Tier, o: nat): Tier
    requires o in s.flushes
  {
    s.(disk := s.disk + {s.flushes[o].key},
       flushes := s.flushes[o := s.flushes[o].(written := true)])
  }

  /** The entry was removed while it was being flushed. */
  function FlushRetire(s: Tier, k: BlockKey): Tier
    requires k in s.index
  {
    var e := s.index[k];
    Settled(s, k, e.(flushing := false, flushPin := false), UnpinnedFor(s, k, e, e.flushPin)).(
      completions := Complete(s.completions, e.gen, false))
  }

  function FlushCommit(s: Tier, k: BlockKey): Tier
    requires k in s.index
  {
    var e := s.index[k];
    s.(index := s.index[k := e.(flushing := false, flushPin := false, durable := true)],
       arena := UnpinnedFor(s, k, e, e.flushPin),
       dirtyBytes := s.dirtyBytes - e.cap,
       dirtyObjects := s.dirtyObjects - 1,
       completions := Complete(s.completions, e.gen, true))
  }

  function FlushRetry(s: Tier, k: BlockKey, tries: nat): Tier
    requires k in s.index
  {
    s.(index := s.index[k := s.index[k].(flushing := false)],
       queue := s.queue + [QueueItem(k, tries)])
  }

  /** Out of retries: drop the value, or hide it while a reader still holds it. */
  function FlushGiveUp(s: Tier, k: BlockKey): Tier
    requires k in s.index
  {
    var e := s.index[k];
    Settled(s, k, e.(flushing := false, flushPin := false, hidden := true), UnpinnedFor(s, k, e, e.flushPin)).(
      completions := Complete(s.completions, e.gen, false))
  }

  function FlushOutcome(s: Tier, k: BlockKey, tries: nat, ok: bool): Tier {
    if k !in s.index then s
    else if s.index[k].hidden then FlushRetire(s, k)
    else if ok then FlushCommit(s, k)
    else if tries < s.retries then FlushRetry(s, k, tries)
    else FlushGiveUp(s, k)
  }

  /** The flusher gives up its ownership and settles the entry by what happened meanwhile. */
  function AfterFlush(s: Tier, o: nat, ok: bool): Tier
    requires o in s.flushes
  {
    FlushOutcome(s, s.flushes[o].key, s.flushes[o].tries + 1, ok).(flushes := s.flushes - {o})
  }

  // ------------------------------------------------------------ eviction

  /** The allocator evicted `k`; the index entry goes with it. */
  function AfterEvict(s: Tier, k: BlockKey): Tier {
    s.(arena := s.arena - {k},
       budgetUsed := if k in s.index then s.budgetUsed - s.index[k].cap else s.budgetUsed,
       index := s.index - {k})
  }

  function AfterReclaimLarge(s: Tier, k: BlockKey): Tier
    requires k in s.index
  {
    s.(budgetUsed := s.budgetUsed - s.index[k].cap,
       largeUsed := s.largeUsed - s.index[k].cap,
       index := s.index - {k})
  }

  // ------------------------------------------------------------ steps

  datatype Step =
    | Claim(c: nat, key: BlockKey, cap: nat, large: bool, kind: Kind)
    | FillArena(c: nat, ref: SlotRef)
    | FillLarge(c: nat)
    | GiveUp(c: nat)
    | Publish(c: nat)
    | Abort(c: nat)
    | ReleaseHeld(c: nat)
    | Unhide(c: nat)
    | Return(c: nat)
    | Get(t: nat, key: BlockKey)
    | ReleaseToken(t: nat)
    | Remove1(r: nat, key: BlockKey)
    | Remove2(r: nat)
    | Remove3(r: nat)
    | Dequeue(o: nat)
    | FlushWrite(o: nat)
    | FlushDone(o: nat, ok: bool)
    | Evict(key: BlockKey)
    | ReclaimLarge(key: BlockKey)
    | DirectPut(key: BlockKey)
    | DiskEvict(key: BlockKey)

  /** A PUT goes around the tier only after the tier let it pass, or for a tenant whose values
      are never written back: the tier then holds no value of the key that is yet to be
      written, and PUTs of one key are serialized. A promoted copy does not matter. */
  predicate DirectAllowed(s: Tier, k: BlockKey) {
    && (k in s.index ==> s.index[k].durable)
    && (k in s.writing ==> s.writing[k] in s.admissions && s.admissions[s.writing[k]].kind != WriteBack)
  }

  predicate Enabled(s: Tier, step: Step) {
    match step
    case Claim(c, k, cap, large, kind) =>
      && c !in s.completions && c !in s.admissions && k !in s.index && k !in s.writing
      && (kind == WriteBack ==> k !in s.disk) && (kind == Reservation ==> !large)
    case FillArena(c, ref) =>
      && c in s.admissions && s.admissions[c].phase == Claimed && !s.admissions[c].large
      && s.admissions[c].key !in s.arena && s.budgetUsed + ref.size <= s.bytes
    case FillLarge(c) =>
      && c in s.admissions && s.admissions[c].phase == Claimed && s.admissions[c].large
      && s.largeUsed + s.admissions[c].cap <= s.largeBytes
      && s.budgetUsed + s.admissions[c].cap <= s.bytes
    case GiveUp(c) => c in s.admissions && s.admissions[c].phase == Claimed
    case Publish(c) => c in s.admissions && c in s.completions && s.admissions[c].phase == Filling
    case Abort(c) =>
      c in s.admissions && s.admissions[c].phase == Filling && s.admissions[c].kind == Reservation
    case ReleaseHeld(c) =>
      && c in s.admissions && s.admissions[c].phase == Held
      && s.admissions[c].key in s.index && s.index[s.admissions[c].key].sendPins > 0
    case Unhide(c) => c in s.admissions && s.admissions[c].phase == Hidden
    case Return(c) => c in s.admissions && s.admissions[c].phase == Dropping
    case Get(t, k) =>
      && t !in s.tokens && k in s.index && !s.index[k].hidden
      && (!s.index[k].large ==> Visible(s.arena, k))
    case ReleaseToken(t) =>
      && t in s.tokens && s.tokens[t].key in s.index && s.index[s.tokens[t].key].sendPins > 0
    case Remove1(r, _) => r !in s.removers
    case Remove2(r) =>
      && r in s.removers && s.removers[r].waiting
      && s.removers[r].gen in s.completions && s.completions[s.removers[r].gen].done
    case Remove3(r) => r in s.removers && !s.removers[r].waiting
    case Dequeue(o) => o !in s.flushes && s.queue != []
    case FlushWrite(o) => o in s.flushes && !s.flushes[o].written
    case FlushDone(o, ok) => o in s.flushes && ok == s.flushes[o].written
    case Evict(k) => k in s.arena && Evictable(s.arena[k])
    case ReclaimLarge(k) =>
      && k in s.index && s.index[k].large && s.index[k].durable
      && s.index[k].sendPins == 0 && !s.index[k].hidden
    case DirectPut(k) => DirectAllowed(s, k)
    case DiskEvict(_) => true
  }

  /** A step of an admission, from its claim to the return of its budget. */
  predicate Admits(step: Step) {
    || step.Claim? || step.FillArena? || step.FillLarge? || step.GiveUp?
    || step.Publish? || step.Abort? || step.Unhide? || step.Return?
  }

  function Apply(s: Tier, step: Step): Tier
    requires Enabled(s, step)
  {
    match step
    case Claim(c, k, cap, large, kind) => AfterClaim(s, c, k, cap, large, kind)
    case FillArena(c, ref) => AfterFillArena(s, c, ref)
    case FillLarge(c) => AfterFillLarge(s, c)
    case GiveUp(c) => AfterGiveUp(s, c)
    case Publish(c) => AfterPublish(s, c)
    case Abort(c) => Withdrawn(s, c)
    case ReleaseHeld(c) => Unsent(s, s.admissions[c].key).(admissions := s.admissions - {c})
    case Unhide(c) => AfterUnhide(s, c)
    case Return(c) => AfterReturn(s, c)
    case Get(t, k) => AfterGet(s, t, k)
    case ReleaseToken(t) => Unsent(s, s.tokens[t].key).(tokens := s.tokens - {t})
    case Remove1(r, k) => AfterRemove1(s, r, k)
    case Remove2(r) => AfterRemove2(s, r)
    case Remove3(r) => AfterRemove3(s, r)
    case Dequeue(o) => AfterDequeue(s, o)
    case FlushWrite(o) => AfterFlushWrite(s, o)
    case FlushDone(o, ok) => AfterFlush(s, o, ok)
    case Evict(k) => AfterEvict(s, k)
    case ReclaimLarge(k) => AfterReclaimLarge(s, k)
    case DirectPut(k) => s.(disk := s.disk + {k})
    case DiskEvict(k) => s.(disk := s.disk - {k})
  }
}
