/** The critical sections of the disk store as they are written: the store's maps and its slab
    allocator, changed one by one under the store lock. Each section is proved to be a step of
    the protocol model that is enabled, or to change nothing. A leading reservation is a
    reservation step, followed by a fault step if a callback of the allocator failed on the way:
    that condemns the store. Answers of the table file are parameters: `recordOk` says whether a
    record write succeeds. */
module DiskSections {
  import opened Types
  import opened Lifecycle
  import opened DiskStore
  import opened SlabFacts
  import RestoreBulk
  import SlabPool
  import SlabShape
  import SA = SlabAllocator

  /** What the first section of a PUT decides. */
  datatype Start = Refused | Present | Follows | Waits | Leads(ref: SlotRef)

  // ------------------------------------------------------------ the allocator's promises

  /** What a successful placement promises: only what may be evicted is gone, and the new slot
      holds the value, lies in an extent and overlaps no other. */
  ghost predicate PlacedWell(v: View, k: BlockKey, len: nat, ref: SlotRef, evicted: set<BlockKey>, extentBytes: nat,
                             extents: nat) {
    && k !in v && AllEvictable(v, evicted) && Laid(Placed(v, evicted, k, ref), extentBytes)
    && 0 < len <= ref.size && ref.extent < extents
  }

  /** A placement that keeps its promises makes the reservation an enabled step. */
  lemma {:induction false} PlacedIsReserved(s: Store, t: nat, k: BlockKey, data: seq<Byte>, ref: SlotRef,
                                            evicted: set<BlockKey>, cleared: set<Place>)
    requires s.healthy && t !in s.writers && k !in s.committed && k !in s.flights && k !in s.deferred
    requires PlacedWell(s.view, k, |data|, ref, evicted, s.extentBytes, |s.media|)
      && ClearsOnlyGone(s.view, evicted, cleared)
    ensures Enabled(s, Reserve(t, k, data, ref, evicted, cleared))
  {
  }

  predicate ShowsKey(p: SlabPool.Pool, v: View, k: BlockKey) {
    && (k in v <==> k in p.residents)
    && (k in v ==> v[k] == SlabPool.ViewOf(p.residents[k]))
  }

  /** `v` is what clients of an allocator with these tables see. */
  ghost predicate Shows(p: SlabPool.Pool, v: View) {
    forall k :: ShowsKey(p, v, k)
  }

  lemma {:induction false} ShownIsSeen(p: SlabPool.Pool, v: View)
    ensures Shows(p, v) <==> v == SlabPool.Seen(p)
  {
    if Shows(p, v) {
      forall k ensures k in v <==> k in SlabPool.Seen(p) { assert ShowsKey(p, v, k); }
      forall k | k in v ensures v[k] == SlabPool.Seen(p)[k] { assert ShowsKey(p, v, k); }
    } else {
      var k :| !ShowsKey(p, v, k);
    }
  }

  class Sections {
    const alloc: SA.SlabAllocator
    const extentBytes: nat
    var committed: map<BlockKey, nat>
    var inflight: map<BlockKey, nat>
    var deferred: set<BlockKey>
    var flights: map<BlockKey, nat>
    var healthy: bool
    ghost var view: View
    ghost var table: map<Place, Rec>
    ghost var media: seq<seq<Byte>>
    ghost var writers: map<nat, PutOp>
    ghost var readers: map<nat, ReadOp>
    ghost var values: map<BlockKey, seq<Byte>>

    /** `view` is what the allocator shows, evictions are made durable, and there is one file
        per extent. */
    ghost predicate Valid() reads this, alloc {
      && alloc.Valid() && alloc.Durable() && Shows(alloc.pool, view) && extentBytes == alloc.geometry.extentBytes
      && |media| == alloc.numExtents && (healthy ==> !alloc.calls.refused)
    }

    /** A slot that a later rebuild accepts. */
    ghost predicate OnLattice(ref: SlotRef) reads alloc {
      RestoreBulk.Slotted(alloc.geometry, SlabShape.Sizes(alloc.pool.classes), alloc.numExtents, ref)
    }

    ghost function State(): Store reads this {
      Store(extentBytes, view, media, table, committed, inflight, deferred, flights, writers, readers, values, healthy)
    }

    /** A new store on an empty allocator. */
    constructor (alloc: SA.SlabAllocator, ghost media: seq<seq<Byte>>)
      requires alloc.Valid() && alloc.Durable() && alloc.View() == map[] && !alloc.calls.refused
        && |media| == alloc.numExtents
      ensures Valid() && this.alloc == alloc
      ensures State() == Store(alloc.geometry.extentBytes, map[], media, map[], map[], map[], {}, map[], map[], map[],
                               map[], true)
    {
      this.alloc, this.media, extentBytes := alloc, media, alloc.geometry.extentBytes;
      committed, inflight, deferred, flights, healthy := map[], map[], {}, map[], true;
      view, table, writers, readers, values := map[], map[], map[], map[], map[];
      new;
      ShownIsSeen(alloc.pool, view);
    }

    // ---------------------------------------------------------- calls of the allocator

    method PinSlot(k: BlockKey)
      requires Valid() && Visible(view, k)
      modifies this`view, alloc
      ensures Valid() && view == AfterPin(old(view), k)
      ensures SlabShape.Sizes(alloc.pool.classes) == old(SlabShape.Sizes(alloc.pool.classes))
    {
      ShownIsSeen(alloc.pool, view);
      var ok := alloc.Pin(k);
      view := alloc.View();
      ShownIsSeen(alloc.pool, view);
    }

    method UnpinSlot(k: BlockKey)
      requires Valid()
      modifies this`view, alloc
      ensures Valid() && view == if k in old(view) && old(view)[k].refs > 0 then AfterUnpin(old(view), k) else old(view)
    {
      ShownIsSeen(alloc.pool, view);
      var ok := alloc.Unpin(k);
      view := alloc.View();
      ShownIsSeen(alloc.pool, view);
    }

    method FindSlot(k: BlockKey, pin: bool) returns (r: Option<SlotRef>)
      requires Valid()
      modifies this`view, alloc
      ensures Valid() && r == if Visible(old(view), k) then Some(old(view)[k].ref) else None
      ensures view == if pin && r.Some? then AfterPin(old(view), k) else old(view)
    {
      ShownIsSeen(alloc.pool, view);
      if pin { r := alloc.GetAndPin(k); } else { r := alloc.Get(k); }
      view := alloc.View();
      ShownIsSeen(alloc.pool, view);
    }

    method FreeSlot(k: BlockKey)
      requires Valid()
      modifies this`view, alloc
      ensures Valid() && view == if k in old(view) then AfterRemove(old(view), k) else old(view)
    {
      ShownIsSeen(alloc.pool, view);
      var r := alloc.Remove(k);
      view := alloc.View();
      ShownIsSeen(alloc.pool, view);
    }

    /** After an allocator call: its callbacks have wiped records or condemned the store, and
        the commit map loses what was evicted. */
    method Forget(gone: seq<BlockKey>, ghost wiped: set<Place>)
      modifies this`view, this`table, this`committed, this`values, this`healthy
      ensures view == alloc.View() && Shows(alloc.pool, view) && table == old(table) - wiped
      ensures committed == old(committed) - Elems(gone) && values == old(values) - Elems(gone)
      ensures healthy == (old(healthy) && !alloc.calls.refused)
    {
      view, table := alloc.View(), table - wiped;
      ShownIsSeen(alloc.pool, view);
      committed := committed - Elems(gone);
      values := values - Elems(gone);
      healthy := healthy && !alloc.calls.refused;
    }

    method AskPut(k: BlockKey, len: nat)
      returns (r: Option<SlotRef>, ghost evicted: set<BlockKey>, ghost cleared: set<Place>)
      requires Valid() && !Visible(view, k)
      modifies this`view, this`table, this`committed, this`values, this`healthy, alloc
      ensures Valid() && ClearsOnlyGone(old(view), evicted, cleared) && (r.None? ==> evicted == {})
      ensures table == old(table) - cleared && committed == old(committed) - evicted && values == old(values) - evicted
      ensures view == if r.Some? then Placed(old(view), evicted, k, r.value) else old(view)
      ensures r.Some? ==> PlacedWell(old(view), k, len, r.value, evicted, extentBytes, |media|) && OnLattice(r.value)
    {
      var gone;
      ShownIsSeen(alloc.pool, view);
      r, gone, cleared := alloc.Put(k, len);
      evicted := Elems(gone);
      Forget(gone, cleared);
    }

    /** The allocator places a value; what it evicted leaves the commit map. */
    method PutSlot(k: BlockKey, len: nat)
      returns (r: Option<SlotRef>, ghost evicted: set<BlockKey>, ghost cleared: set<Place>)
      requires Valid() && !Visible(view, k)
      modifies this`view, this`table, this`committed, this`values, this`healthy, alloc
      ensures Valid() && ClearsOnlyGone(old(view), evicted, cleared) && (r.None? ==> evicted == {})
      ensures r.None? ==> State() == old(State()).(table := old(table) - cleared, healthy := healthy)
      ensures r.Some? ==>
        State() == old(State()).(view := Placed(old(view), evicted, k, r.value), table := old(table) - cleared,
                                 committed := old(committed) - evicted, values := old(values) - evicted,
                                 healthy := healthy)
      ensures r.Some? ==> PlacedWell(old(view), k, len, r.value, evicted, extentBytes, |media|) && OnLattice(r.value)
    {
      ghost var c, v := committed, values;
      r, evicted, cleared := AskPut(k, len);
      if r.None? { assert c - {} == c && v - {} == v; }
    }

    /** A placed value is pinned for the write that follows. */
    method PlaceAndPin(k: BlockKey, len: nat)
      returns (r: Option<SlotRef>, ghost evicted: set<BlockKey>, ghost cleared: set<Place>)
      requires Valid() && !Visible(view, k)
      modifies this`view, this`table, this`committed, this`values, this`healthy, alloc
      ensures Valid() && ClearsOnlyGone(old(view), evicted, cleared) && (r.None? ==> evicted == {})
      ensures r.None? ==> State() == old(State()).(table := old(table) - cleared, healthy := healthy)
      ensures r.Some? ==>
        State() == old(State()).(view := AfterPin(Placed(old(view), evicted, k, r.value), k),
                                 table := old(table) - cleared,
                                 committed := old(committed) - evicted, values := old(values) - evicted,
                                 healthy := healthy)
      ensures r.Some? ==> PlacedWell(old(view), k, len, r.value, evicted, extentBytes, |media|) && OnLattice(r.value)
    {
      r, evicted, cleared := PutSlot(k, len);
      if r.Some? { PinSlot(k); }
    }

    // ---------------------------------------------------------- sections of a PUT

    /** First section of a PUT: a committed key is kept, a key being written is followed, a key
        whose removal is deferred is waited for; otherwise the value is placed and pinned. */
    method Reserve(t: nat, k: BlockKey, len: nat, ghost data: seq<Byte>)
      returns (r: Start, ghost evicted: set<BlockKey>, ghost cleared: set<Place>)
      requires Valid() && |data| == len && t !in writers
      modifies this, alloc
      ensures Valid()
      ensures r.Present? <==> old(healthy) && k in old(committed)
      ensures r.Follows? <==> old(healthy) && k !in old(committed) && k in old(flights)
      ensures r.Waits? <==> old(healthy) && k !in old(committed) && k !in old(flights) && k in old(deferred)
      ensures r.Present? || r.Follows? || r.Waits? || !old(healthy) ==> State() == old(State())
      ensures r.Leads? ==>
        var step := DiskStore.Reserve(t, k, data, r.ref, evicted, cleared);
        Enabled(old(State()), step) && State() == Apply(old(State()), step).(healthy := healthy) && OnLattice(r.ref)
      ensures r.Refused? && old(healthy) ==>
        var step := ReserveFails(cleared, healthy); Enabled(old(State()), step) && State() == Apply(old(State()), step)
    {
      evicted, cleared := {}, {};
      if !healthy { return Refused, {}, {}; }
      if k in committed { return Present, {}, {}; }
      if k in flights { return Follows, {}, {}; }
      if k in deferred { return Waits, {}, {}; }
      ShownIsSeen(alloc.pool, view);
      var known := alloc.Contains(k);
      if known {
        assert table - {} == table;
        return Refused, {}, {};
      }
      ghost var s := State();
      r, evicted, cleared := Lead(t, k, len, data);
      if r.Leads? { PlacedIsReserved(s, t, k, data, r.ref, evicted, cleared); }
    }

    /** Nobody else is on the key: place the value, pin it and take charge. */
    method Lead(t: nat, k: BlockKey, len: nat, ghost data: seq<Byte>)
      returns (r: Start, ghost evicted: set<BlockKey>, ghost cleared: set<Place>)
      requires Valid() && !Visible(view, k)
      modifies this, alloc
      ensures Valid() && (r.Leads? || r.Refused?) && ClearsOnlyGone(old(view), evicted, cleared)
        && (r.Refused? ==> evicted == {})
      ensures r.Leads? ==> PlacedWell(old(view), k, len, r.ref, evicted, extentBytes, |media|) && OnLattice(r.ref)
      ensures r.Leads? ==> State() == AfterReserve(old(State()), t, k, data, r.ref, evicted,
                                                   cleared).(healthy := healthy)
      ensures r.Refused? ==> State() == old(State()).(table := old(table) - cleared, healthy := healthy)
    {
      var ref;
      ref, evicted, cleared := PlaceAndPin(k, len);
      if ref.None? { return Refused, {}, cleared; }
      TakeCharge(t, k, ref.value, data);
      r := Leads(ref.value);
    }

    method TakeCharge(t: nat, k: BlockKey, ref: SlotRef, ghost data: seq<Byte>)
      modifies this`flights, this`inflight, this`writers
      ensures State() == old(State()).(flights := old(flights)[k := t],
                                       inflight := old(inflight)[k := Count(old(inflight), k) + 1],
                                       writers := old(writers)[t := PutOp(k, data, ref, Reserved)])
    {
      flights := flights[k := t];
      inflight := inflight[k := Count(inflight, k) + 1];
      writers := writers[t := PutOp(k, data, ref, Reserved)];
    }

    /** Writes one record; a failure condemns the store. */
    method WriteRecord(ref: SlotRef, rec: Rec, recordOk: bool) returns (ok: bool)
      modifies this`table, this`healthy
      ensures ok == (old(healthy) && recordOk) && healthy == (old(healthy) && recordOk)
      ensures table == if ok then old(table)[PlaceOf(ref) := rec] else old(table)
    {
      if !healthy { return false; }
      if !recordOk {
        healthy := false;
        return false;
      }
      table := table[PlaceOf(ref) := rec];
      return true;
    }

    // ---------------------------------------------------------- readers and removals

    /** A reader resolves and holds a committed key. */
    method AcquireForRead(k: BlockKey, ghost t: nat) returns (r: Option<(SlotRef, nat)>)
      requires Valid()
      modifies this, alloc
      ensures Valid()
      ensures r.Some? <==> old(healthy) && k in old(committed) && Visible(old(view), k)
      ensures r.Some? ==>
        r.value == (old(view)[k].ref, old(committed)[k]) && State() == AfterAcquire(old(State()), t, k)
      ensures r.None? ==> State() == old(State())
    {
      if !healthy || k !in committed { return None; }
      var found := FindSlot(k, true);
      if found.None? { return None; }
      r := Some((found.value, committed[k]));
      readers := readers[t := ReadOp(k, found.value, committed[k], if k in values then values[k] else [])];
      inflight := inflight[k := Count(inflight, k) + 1];
    }

    /** One pin and one in-flight count less; reports whether this was the last holder of a key
        whose removal was deferred. */
    method LetGo(k: BlockKey) returns (inherits: bool)
      requires Valid()
      modifies this`view, this`inflight, alloc
      ensures Valid() && State() == Unhold(old(State()), k) && inherits == Inherits(old(State()), k)
    {
      UnpinSlot(k);
      inherits := k in inflight && inflight[k] <= 1 && k in deferred;
      if k in inflight {
        inflight := if inflight[k] > 1 then inflight[k := inflight[k] - 1] else inflight - {k};
      }
    }

    /** Durable invalidation, then the physical removal. */
    method Invalidate(k: BlockKey, ref: SlotRef, recordOk: bool) returns (ok: bool)
      requires Valid() && k in view
      modifies this`view, this`table, this`healthy, alloc
      ensures Valid() && ok == (old(healthy) && recordOk) && healthy == ok
      ensures table == if ok then old(table)[PlaceOf(ref) := Rec(k, ref.size, 0, false)] else old(table)
      ensures view == if ok then AfterRemove(old(view), k) else old(view)
    {
      ok := WriteRecord(ref, Rec(k, ref.size, 0, false), recordOk);
      if ok { FreeSlot(k); }
    }

    /** Removes a visible key unless somebody holds it. */
    method Withdraw(k: BlockKey, held: bool, recordOk: bool) returns (found: bool, ok: bool)
      requires Valid()
      modifies this`view, this`table, this`healthy, alloc
      ensures Valid() && found == Visible(old(view), k)
      ensures !found || held ==> ok && State() == old(State())
      ensures found && !held ==>
        && ok == (old(healthy) && recordOk) && healthy == ok
        && table == (if ok then old(table)[PlaceOf(old(view)[k].ref) := Rec(k, old(view)[k].ref.size, 0, false)]
          else old(table))
        && view == (if ok then AfterRemove(old(view), k) else old(view))
    {
      var ref := FindSlot(k, false);
      if ref.None? { return false, true; }
      if held { return true, true; }
      ok := Invalidate(k, ref.value, recordOk);
      found := true;
    }

    /** The deferred removal: the durable invalidation comes before the physical removal. */
    method CarryOut(k: BlockKey, recordOk: bool) returns (ok: bool)
      requires Valid()
      modifies this`view, this`deferred, this`table, this`healthy, this`committed, this`values, alloc
      ensures Valid() && State() == PerformRemoval(old(State()), k, recordOk)
      ensures ok == (!Visible(old(view), k) || (old(healthy) && recordOk))
    {
      var found;
      found, ok := Withdraw(k, false, recordOk);
      deferred := deferred - {k};
      committed := committed - {k};
      values := values - {k};
    }

    /** Gives one hold back. The last holder carries out a removal that was deferred to it. */
    method ReleaseInflight(k: BlockKey, recordOk: bool) returns (ok: bool)
      requires Valid()
      modifies this`view, this`inflight, this`deferred, this`table, this`healthy, this`committed, this`values, alloc
      ensures Valid() && State() == AfterRelease(old(State()), k, recordOk)
      ensures ok == ReleaseOk(old(State()), k, recordOk)
    {
      var inherits := LetGo(k);
      if !inherits { return true; }
      ok := CarryOut(k, recordOk);
    }

    /** The leader's verdict: publish, roll back, or neither when a removal came meanwhile. */
    method Decide(t: nat, ghost p: PutOp, k: BlockKey, len: nat, ioOk: bool, removed: bool) returns (ok: bool)
      requires Valid() && p.key == k && |p.data| == len
      modifies this`view, this`committed, this`values, this`flights, this`writers, alloc
      ensures Valid() && State() == Conclude(old(State()), t, p, ioOk, removed) && ok == (ioOk && old(healthy))
    {
      ok := ioOk && healthy;
      if !ok {
        if !removed { FreeSlot(k); }
      } else if !removed {
        committed := committed[k := len];
        values := values[k := p.data];
      }
      EndFlight(t, k);
    }

    method EndFlight(t: nat, k: BlockKey)
      requires Valid()
      modifies this`flights, this`writers
      ensures Valid() && State() == old(State()).(flights := old(flights) - {k}, writers := old(writers) - {t})
    {
      flights := flights - {k};
      writers := writers - {t};
    }

    /** Last section of a PUT leader. */
    method Finish(t: nat, ghost p: PutOp, k: BlockKey, len: nat, ioOk: bool, recordOk: bool) returns (ok: bool)
      requires Valid() && t in writers && writers[t] == p && p.key == k && |p.data| == len
        && ioOk == (p.phase == Recorded)
      modifies this, alloc
      ensures Valid() && State() == AfterCommit(old(State()), t, recordOk)
      ensures ok <==> ioOk && ReleaseOk(old(State()), k, recordOk) && AfterRelease(old(State()), k, recordOk).healthy
      ensures ok && k !in old(deferred) ==> k in committed && committed[k] == len && k in values && values[k] == p.data
      ensures k in committed && k !in old(committed) ==> ok && k !in old(deferred)
    {
      var removed := k in deferred;
      var released := ReleaseInflight(k, recordOk);
      ok := Decide(t, p, k, len, ioOk && released, removed);
    }

    /** Explicit removal. */
    method Remove(k: BlockKey, recordOk: bool) returns (found: bool)
      requires Valid()
      modifies this, alloc
      ensures Valid() && State() == AfterRemoveKey(old(State()), k, recordOk)
      ensures found == (old(healthy) && Visible(old(view), k))
    {
      if !healthy { return false; }
      var held := k in inflight;
      var ok;
      found, ok := Withdraw(k, held, recordOk);
      if found && ok { Retract(k, held); }
    }

    /** The key is no longer committed; if it is held, the last holder removes it. */
    method Retract(k: BlockKey, held: bool)
      requires Valid()
      modifies this`deferred, this`committed, this`values
      ensures Valid() && State() == old(State()).(deferred := if held then old(deferred) + {k} else old(deferred),
                                                  committed := old(committed) - {k}, values := old(values) - {k})
    {
      if held { deferred := deferred + {k}; }
      committed := committed - {k};
      values := values - {k};
    }

    // ---------------------------------------------------------- background eviction

    /** The commit map follows what the allocator evicted: a reclaim step, which takes only what
        nobody holds or protects. */
    method Settle(gone: seq<BlockKey>, ghost wiped: set<Place>, ghost p: SlabPool.Pool) returns (ghost step: Step)
      requires alloc.Valid() && alloc.Durable() && extentBytes == alloc.geometry.extentBytes
        && |media| == alloc.numExtents
      requires Shows(p, view) && Evicts(p, alloc.pool, gone, wiped, true)
      modifies this`view, this`table, this`committed, this`values, this`healthy
      ensures Valid() && step == Reclaim(Elems(gone), wiped, !alloc.calls.refused)
      ensures Enabled(old(State()), step)
        && State() == AfterReclaim(old(State()), Elems(gone), wiped, !alloc.calls.refused)
    {
      ShownIsSeen(p, view);
      step := Reclaim(Elems(gone), wiped, !alloc.calls.refused);
      Forget(gone, wiped);
    }

    /** The watermark sweep. */
    method SweepToWatermark(low: nat, most: nat) returns (ghost step: Step)
      requires Valid()
      modifies this, alloc
      ensures Valid() && step.Reclaim? && Enabled(old(State()), step) && State() == Apply(old(State()), step)
    {
      ghost var p := alloc.pool;
      var gone;
      ghost var wiped;
      gone, wiped := alloc.EvictColdToTarget(low, most);
      step := Settle(gone, wiped, p);
    }

    /** A batch of class reclaim. */
    method ReclaimClass(c: nat, target: nat, most: nat) returns (ghost step: Step)
      requires Valid()
      modifies this, alloc
      ensures Valid() && step.Reclaim? && Enabled(old(State()), step) && State() == Apply(old(State()), step)
    {
      ghost var p := alloc.pool;
      var gone;
      ghost var wiped;
      gone, wiped := alloc.ReclaimClass(c, target, most);
      step := Settle(gone, wiped, p);
    }

    /** A rebalancing steal. */
    method Rebalance(donor: nat, target: nat) returns (ok: bool, ghost step: Step)
      requires Valid()
      modifies this, alloc
      ensures Valid() && step.Reclaim? && Enabled(old(State()), step) && State() == Apply(old(State()), step)
    {
      ghost var p := alloc.pool;
      var gone;
      ghost var wiped;
      ok, gone, wiped := alloc.StealFrom(donor, target);
      step := Settle(gone, wiped, p);
    }
  }
}
