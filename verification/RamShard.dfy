/** The critical sections of a RAM tier shard as they are written: fields changed one by one
    under the shard lock. Each is proved to be exactly one step of the protocol model, the two
    loops of a flusher a run of such steps. */
module RamShard {
  import opened Types
  import opened Lifecycle
  import opened RamTier

  class Shard {
    const bytes: nat
    const largeBytes: nat
    const retries: nat
    var index: map<BlockKey, Entry>
    var writing: map<BlockKey, nat>
    var queue: seq<QueueItem>
    var completions: map<nat, Completion>
    var arena: View
    var budgetUsed: int
    var largeUsed: int
    var dirtyBytes: int
    var dirtyObjects: int
    ghost var admissions: map<nat, Admission>
    ghost var flushes: map<nat, Flush>
    ghost var tokens: map<nat, Token>
    ghost var removers: map<nat, Remover>
    ghost var disk: set<BlockKey>

    ghost function State(): Tier reads this {
      Tier(bytes, largeBytes, retries, index, writing, queue, completions, arena, admissions, flushes, tokens, removers,
           disk, budgetUsed, largeUsed, dirtyBytes, dirtyObjects)
    }

    /** Erases the entry and returns its memory, or only hides it while somebody holds it. */
    method DropLocked(k: BlockKey)
      requires k in index
      modifies this`index, this`arena, this`budgetUsed, this`largeUsed, this`dirtyBytes, this`dirtyObjects
      ensures State() == Settled(old(State()), k, old(index)[k].(hidden := true), old(arena))
    {
      var e := index[k];
      ghost var s := State();
      if e.sendPins != 0 || e.flushing {
        assert Settled(s, k, e.(hidden := true), s.arena) == s.(index := s.index[k := e.(hidden := true)]);
        index := index[k := e.(hidden := true)];
      } else {
        SettledDrops(s, k, e.(hidden := true), s.arena);
        if !e.durable {
          dirtyBytes := dirtyBytes - e.cap;
          dirtyObjects := dirtyObjects - 1;
        }
        if !e.large && k in arena { arena := AfterRemove(arena, k); }
        index := index - {k};
        budgetUsed := budgetUsed - e.cap;
        if e.large { largeUsed := largeUsed - e.cap; }
      }
    }

    /** Erases every queued item of `k`. */
    method Unqueue(k: BlockKey)
      modifies this`queue
      ensures queue == Without(old(queue), k)
    {
      var kept, i := [], 0;
      while i < |queue|
        invariant i <= |queue| && kept + Without(queue[i..], k) == Without(queue, k)
        modifies {}
      {
        assert queue[i..][1..] == queue[i + 1..];
        if queue[i].key != k { kept := kept + [queue[i]]; }
        i := i + 1;
      }
      queue := kept;
    }

    method CompleteLocked(c: nat, success: bool)
      modifies this`completions
      ensures completions == Complete(old(completions), c, success)
    {
      if c in completions && !completions[c].done {
        completions := completions[c := completions[c].(done := true, success := success)];
      }
    }

    method UnpinLocked(k: BlockKey)
      modifies this`arena
      ensures arena == Unpinned1(old(arena), k)
    {
      if k in arena && arena[k].refs > 0 { arena := AfterUnpin(arena, k); }
    }

    /** Hides a visible entry; an idle one also loses its flush pin, its waiters and, if nobody
        reads it, its memory. */
    method HideLocked(k: BlockKey)
      requires k in index
      modifies this`index, this`arena, this`queue, this`completions, this`budgetUsed, this`largeUsed, this`dirtyBytes,
               this`dirtyObjects
      ensures State() == Hide(old(State()), k)
    {
      var e := index[k];
      ghost var s := State();
      index := index[k := e.(hidden := true)];
      Unqueue(k);
      if !e.flushing {
        if e.flushPin {
          if !e.large { UnpinLocked(k); }
          index := index[k := e.(hidden := true, flushPin := false)];
        }
        if !e.durable { CompleteLocked(e.gen, false); }
      }
      assert State() == s.(index := s.index[k := HiddenEntry(e)], arena := HiddenArena(s, k, e),
                           queue := Without(s.queue, k), completions := HiddenCompletions(s, e));
      if !e.flushing && e.sendPins == 0 {
        HideDrops(s, k);
        DropLocked(k);
      } else {
        HideHeld(s, k);
      }
    }

    /** First section of a removal; `had` is its eventual answer. */
    method RemoveBegin(ghost r: nat, k: BlockKey) returns (wait: Option<nat>, had: bool)
      modifies this
      ensures State() == AfterRemove1(old(State()), r, k)
      ensures had == wait.Some? && removers[r].had == had && (wait.Some? ==> removers[r].gen == wait.value)
    {
      if k in writing {
        var c := writing[k];
        if c in completions { completions := completions[c := completions[c].(canceled := true)]; }
        wait, had := Some(c), true;
      } else if k in index && !index[k].hidden {
        wait, had := Some(index[k].gen), true;
        HideLocked(k);
      } else {
        wait, had := None, false;
      }
      removers := removers[r := if wait.Some? then Remover(k, wait.value, true, true) else Remover(k, 0, false, false)];
    }

    /** A reader takes a pin. */
    method GetPrep(ghost t: nat, k: BlockKey) returns (hit: bool)
      requires k in index && !index[k].large ==> k in arena
      modifies this
      ensures hit <==> k in old(index) && !old(index)[k].hidden && (!old(index)[k].large ==> Visible(old(arena), k))
      ensures State() == if hit then AfterGet(old(State()), t, k) else old(State())
    {
      if k !in index || index[k].hidden { return false; }
      var e := index[k];
      if !e.large {
        if arena[k].pending { return false; }
        arena := AfterPin(arena, k);
      }
      index := index[k := e.(sendPins := e.sendPins + 1)];
      tokens := tokens[t := Token(k, e.gen)];
      return true;
    }

    /** A reader gives its pin back; the last reader of a hidden entry drops it. */
    method Release(ghost t: nat, k: BlockKey)
      requires k in index && index[k].sendPins > 0
      modifies this
      ensures State() == Unsent(old(State()), k).(tokens := old(tokens) - {t})
    {
      var e := index[k];
      ghost var s := State();
      index := index[k := e.(sendPins := e.sendPins - 1)];
      if !e.large { UnpinLocked(k); }
      if e.hidden && e.sendPins == 1 && !e.flushing {
        SettledDrops(s, k, e.(sendPins := e.sendPins - 1), arena);
        SettledDrops(State(), k, index[k], arena);
        DropLocked(k);
        assert index == s.index - {k};
      } else {
        SettledStays(s, k, e.(sendPins := e.sendPins - 1), arena);
      }
      tokens := tokens - {t};
    }

    /** Second section of a removal: cleans up the generation it waited for, and no other. */
    method RemoveEnd(ghost r: nat, k: BlockKey, gen: nat)
      requires r in removers && removers[r].key == k && removers[r].gen == gen
      modifies this
      ensures State() == AfterRemove2(old(State()), r)
    {
      if k in index && index[k].gen == gen {
        var e := index[k];
        if !e.hidden {
          HideLocked(k);
        } else if !e.flushing && e.sendPins == 0 {
          DropLocked(k);
        } else {
          SettledStays(State(), k, e, arena);
          assert index[k := index[k]] == index;
        }
      }
      removers := removers[r := removers[r].(waiting := false)];
    }

    /** A flusher takes up to `most` queued entries in one section. */
    method Drain(most: nat, ghost o: nat) returns (batch: seq<QueueItem>, ghost n: nat)
      modifies this
      ensures State() == DequeueMany(old(State()), o, n) && batch == Taken(old(State()), o, n) && |batch| <= most
      ensures queue == [] || |batch| == most
    {
      batch, n := [], 0;
      ghost var s := State();
      while queue != [] && |batch| < most
        invariant |batch| <= most && State() == DequeueMany(s, o, n) && batch == Taken(s, o, n)
        decreases |queue|
      {
        var q := queue[0];
        ghost var t := State();
        DequeueOneMore(s, o, n);
        queue := queue[1..];
        if q.key in index && !index[q.key].durable && !index[q.key].hidden {
          flushes := flushes[o + n := Flush(q.key, index[q.key].gen, q.tries, false)];
          index := index[q.key := index[q.key].(flushing := true)];
          batch := batch + [q];
        }
        assert State() == AfterDequeue(t, o + n);
        n := n + 1;
      }
    }

    /** The entry loses its flush mark and its flush pin. */
    method EndFlush(k: BlockKey)
      requires k in index
      modifies this`index, this`arena
      ensures index == old(index)[k := old(index)[k].(flushing := false, flushPin := false)]
      ensures arena == UnpinnedFor(old(State()), k, old(index)[k], old(index)[k].flushPin)
    {
      var e := index[k];
      if e.flushPin && !e.large { UnpinLocked(k); }
      index := index[k := e.(flushing := false, flushPin := false)];
    }

    /** The entry was hidden while it was flushed, or its flusher is out of retries. */
    method DropFlushed(k: BlockKey)
      requires k in index
      modifies this`index, this`arena, this`completions, this`budgetUsed, this`largeUsed, this`dirtyBytes,
               this`dirtyObjects
      ensures State() == FlushGiveUp(old(State()), k)
    {
      var e := index[k];
      ghost var s := State();
      EndFlush(k);
      ghost var n := e.(flushing := false, flushPin := false, hidden := true);
      DropLocked(k);
      SettledAgain(s, k, e.(flushing := false, flushPin := false), n, FlushedArena(s, k, e));
      CompleteLocked(e.gen, false);
    }

    /** The write reached the disk. */
    method CommitFlushed(k: BlockKey)
      requires k in index
      modifies this`index, this`arena, this`completions, this`dirtyBytes, this`dirtyObjects
      ensures State() == FlushCommit(old(State()), k)
    {
      var e := index[k];
      ghost var s := State();
      EndFlush(k);
      assert s.index[k := e.(flushing := false, flushPin := false)][k := e.(flushing := false, flushPin := false,
          durable := true)]
          == s.index[k := e.(flushing := false, flushPin := false, durable := true)];
      index := index[k := index[k].(durable := true)];
      dirtyBytes := dirtyBytes - e.cap;
      dirtyObjects := dirtyObjects - 1;
      CompleteLocked(e.gen, true);
    }

    /** What a flusher does with one entry of its batch after writing it. */
    method SettleFlushed(item: QueueItem, ok: bool)
      modifies this`index, this`arena, this`queue, this`completions, this`budgetUsed, this`largeUsed, this`dirtyBytes,
               this`dirtyObjects
      ensures State() == FlushOutcome(old(State()), item.key, item.tries + 1, ok)
    {
      var k := item.key;
      ghost var s := State();
      if k !in index { return; }
      if index[k].hidden {
        assert FlushGiveUp(s, k) == FlushRetire(s, k);
        DropFlushed(k);
      } else if ok {
        CommitFlushed(k);
      } else if item.tries + 1 < retries {
        index := index[k := index[k].(flushing := false)];
        queue := queue + [QueueItem(k, item.tries + 1)];
        assert State() == FlushRetry(s, k, item.tries + 1);
      } else {
        DropFlushed(k);
      }
    }

    method FinishOne(item: QueueItem, ok: bool, ghost o: nat)
      requires o in flushes && flushes[o].key == item.key && flushes[o].tries == item.tries
      modifies this
      ensures State() == AfterFlush(old(State()), o, ok)
    {
      SettleFlushed(item, ok);
      flushes := flushes - {o};
    }

    /** A write-back value enters the index, the queue and the dirty counters. */
    method PublishWriteBack(c: nat, a: Admission)
      requires c in admissions && admissions[c] == a && a.kind == WriteBack
      modifies this
      ensures State() == Published(old(State()), c)
    {
      ghost var s := State();
      assert Published(s, c) ==
        s.(writing := s.writing - {a.key},
           index := s.index[a.key := Entry(c, a.cap, a.large, 0, false, false, true, false)],
           queue := s.queue + [QueueItem(a.key, 0)], dirtyBytes := s.dirtyBytes + a.cap,
           dirtyObjects := s.dirtyObjects + 1,
           admissions := s.admissions - {c});
      writing := writing - {a.key};
      index := index[a.key := Entry(c, a.cap, a.large, 0, false, false, true, false)];
      queue := queue + [QueueItem(a.key, 0)];
      dirtyBytes := dirtyBytes + a.cap;
      dirtyObjects := dirtyObjects + 1;
      admissions := admissions - {c};
    }

    /** A promoted value is born durable; a reservation keeps one pin for its reply. */
    method PublishDurable(c: nat, a: Admission)
      requires c in admissions && admissions[c] == a && a.kind != WriteBack
      modifies this
      ensures State() == Published(old(State()), c)
    {
      writing := writing - {a.key};
      index := index[a.key := Entry(c, a.cap, a.large, if a.kind == Reservation then 1
        else 0, true, false, false, false)];
      CompleteLocked(c, true);
      if a.kind == Promote && !a.large { UnpinLocked(a.key); }
      admissions := if a.kind == Reservation then admissions[c := a.(phase := Held)] else admissions - {c};
    }

    /** The same section when a removal came first. */
    method PublishCanceled(c: nat, a: Admission)
      requires c in admissions && admissions[c] == a && (a.kind == Reservation ==> !a.large)
      modifies this
      ensures State() == if a.kind == Reservation then Concealed(old(State()), c) else Withdrawn(old(State()), c)
    {
      var k := a.key;
      writing := writing - {k};
      if a.kind == Reservation {
        if k in arena { arena := AfterRemove(arena, k); }
        CompleteLocked(c, false);
        admissions := admissions[c := a.(phase := Hidden)];
      } else {
        if !a.large {
          UnpinLocked(k);
          if k in arena { arena := AfterRemove(arena, k); }
        }
        admissions := admissions[c := a.(phase := Dropping)];
      }
    }

    /** Publication: the cancellation check, the end of the claim and the new entry are one
        section, so a removal sees either the claim or the entry. */
    method Publish(c: nat, a: Admission)
      requires c in admissions && admissions[c] == a && c in completions && (a.kind == Reservation ==> !a.large)
      modifies this
      ensures State() == AfterPublish(old(State()), c)
    {
      if completions[c].canceled {
        PublishCanceled(c, a);
      } else if a.kind == WriteBack {
        PublishWriteBack(c, a);
      } else {
        PublishDurable(c, a);
      }
    }
  }

  function FlushedArena(s: Tier, k: BlockKey, e: Entry): View {
    UnpinnedFor(s, k, e, e.flushPin)
  }

  /** Settling an entry that was stored a moment ago. */
  lemma {:induction false} SettledAgain(s: Tier, k: BlockKey, m: Entry, n: Entry, arena: View)
    requires n.hidden && m.cap == n.cap
    ensures Settled(s.(index := s.index[k := m], arena := arena), k, n, arena) == Settled(s, k, n, arena)
  {
    var t := s.(index := s.index[k := m], arena := arena);
    assert t.index - {k} == s.index - {k} && t.index[k := n] == s.index[k := n];
  }

  /** `n` dequeues in a row, by flushers `o`, `o + 1`, ... */
  function DequeueMany(s: Tier, o: nat, n: nat): Tier {
    if n == 0 then s
    else
      var t := DequeueMany(s, o, n - 1);
      if t.queue == [] then t else AfterDequeue(t, o + n - 1)
  }

  /** What those steps take for flushing. */
  function Taken(s: Tier, o: nat, n: nat): seq<QueueItem> {
    if n == 0 then []
    else
      var t := DequeueMany(s, o, n - 1);
      Taken(s, o, n - 1) + (if t.queue != [] && Awaits(t, t.queue[0].key) then [t.queue[0]] else [])
  }

  /** The key's entry still has to be written. */
  predicate Awaits(s: Tier, k: BlockKey) {
    k in s.index && !s.index[k].durable && !s.index[k].hidden
  }

  lemma {:induction false} DequeueOneMore(s: Tier, o: nat, n: nat)
    requires DequeueMany(s, o, n).queue != []
    ensures DequeueMany(s, o, n + 1) == AfterDequeue(DequeueMany(s, o, n), o + n)
    ensures var q := DequeueMany(s, o, n).queue[0];
      Taken(s, o, n + 1) == Taken(s, o, n) + (if Awaits(DequeueMany(s, o, n), q.key) then [q] else [])
  {
  }

  lemma {:induction false} SettledDrops(s: Tier, k: BlockKey, e: Entry, arena: View)
    requires e.hidden && e.sendPins == 0 && !e.flushing
    ensures Settled(s, k, e, arena) ==
      s.(index := s.index - {k},
         arena := if e.large then arena else Freed(arena, k),
         budgetUsed := s.budgetUsed - e.cap,
         largeUsed := if e.large then s.largeUsed - e.cap else s.largeUsed,
         dirtyBytes := if e.durable then s.dirtyBytes else s.dirtyBytes - e.cap,
         dirtyObjects := if e.durable then s.dirtyObjects else s.dirtyObjects - 1)
  {
  }

  lemma {:induction false} SettledStays(s: Tier, k: BlockKey, e: Entry, arena: View)
    requires !(e.hidden && e.sendPins == 0 && !e.flushing)
    ensures Settled(s, k, e, arena) == s.(index := s.index[k := e], arena := arena)
  {
  }

  function HiddenEntry(e: Entry): Entry {
    e.(hidden := true, flushPin := e.flushPin && e.flushing)
  }

  function HiddenArena(s: Tier, k: BlockKey, e: Entry): View {
    UnpinnedFor(s, k, e, !e.flushing && e.flushPin)
  }

  function HiddenCompletions(s: Tier, e: Entry): map<nat, Completion> {
    if !e.flushing && !e.durable then Complete(s.completions, e.gen, false) else s.completions
  }

  /** Hiding an entry that somebody still holds. */
  lemma {:induction false} HideHeld(s: Tier, k: BlockKey)
    requires k in s.index && (s.index[k].flushing || s.index[k].sendPins > 0)
    ensures var e := s.index[k];
      Hide(s, k) == s.(index := s.index[k := HiddenEntry(e)], arena := HiddenArena(s, k, e),
                       queue := Without(s.queue, k), completions := HiddenCompletions(s, e))
  {
    var e := s.index[k];
    SettledStays(s, k, HiddenEntry(e), HiddenArena(s, k, e));
    assert Hide(s, k) == Settled(s, k, HiddenEntry(e), HiddenArena(s, k, e)).(queue := Without(s.queue, k),
        completions := HiddenCompletions(s, e));
  }

  /** Hiding an entry that nobody holds drops it. */
  lemma {:induction false} HideDrops(s: Tier, k: BlockKey)
    requires k in s.index && !s.index[k].flushing && s.index[k].sendPins == 0
    ensures var e := s.index[k];
      Hide(s, k) == Settled(s.(queue := Without(s.queue, k), completions := HiddenCompletions(s, e),
                               arena := HiddenArena(s, k, e),
                               index := s.index[k := HiddenEntry(e)]), k, HiddenEntry(e), HiddenArena(s, k, e))
  {
    var e := s.index[k];
    var t := s.(queue := Without(s.queue, k), completions := HiddenCompletions(s, e), arena := HiddenArena(s, k, e),
                index := s.index[k := HiddenEntry(e)]);
    SettledDrops(s, k, HiddenEntry(e), HiddenArena(s, k, e));
    SettledDrops(t, k, HiddenEntry(e), HiddenArena(s, k, e));
    assert t.index - {k} == s.index - {k};
    assert Hide(s, k) == Settled(s, k, HiddenEntry(e), HiddenArena(s, k, e)).(queue := Without(s.queue, k),
        completions := HiddenCompletions(s, e));
  }
}
