/** The slab allocator. Every public method is one critical section on the allocator's
    tables. Callbacks that make evictions durable are questions to an oracle; `wiped`
    reports the table positions that they cleared during a call. */
module SlabAllocator {
  import opened Types
  import opened Lifecycle
  import opened SweepOrder
  import opened SlabPool
  import opened SlabInvariant
  import opened SlabKeeps
  import opened SlabFacts
  import opened SlabShape
  import opened ClockSweep
  import opened ColdSweep
  import opened StealOrder
  import opened RoomOrder
  import opened SizeClasses
  import opened Wheel
  import opened RestoreBulk
  import opened RetentionDrain
  import F = FreeLists

  datatype Call = BindCall(extent: nat) | SlotCall(ref: SlotRef) | ExtentCall(extent: nat)

  /** Which persistence callbacks are configured. */
  datatype Callbacks = Callbacks(onBind: bool, onSlot: bool, onExtent: bool)

  /** How often a callback ran, and whether one has ever reported a failure. */
  datatype CallLog = CallLog(count: nat, refused: bool)

  datatype BindResult = Done | Unavailable | PersistenceError

  datatype RetainCode = Miss | HitUnprotected | ProtectedNew | Extended | Upgraded | Unchanged | Denied

  datatype RoundResult = Found | Failed | Again

  datatype RemoveResult = Gone | Deferred | NotFound

  /** How many slots of a class may be protected. */
  function ProtectCap(bound: int, perExtent: nat, classPct: nat): int {
    var cap := bound * perExtent * classPct / 100;
    if cap < UINT32_MAX then cap else UINT32_MAX
  }

  /** It is the given share of its slots, rounded down, within 32 bits. */
  lemma {:induction false} ProtectCapIsShare(bound: nat, perExtent: nat, classPct: nat)
    ensures var cap, slots := ProtectCap(bound, perExtent, classPct), bound * perExtent;
      && 0 <= cap <= UINT32_MAX && cap * 100 <= slots * classPct
      && (cap < UINT32_MAX ==> slots * classPct < (cap + 1) * 100)
  {
    var x := bound * perExtent * classPct;
    assert x == (x / 100) * 100 + x % 100;
  }

  class SlabAllocator {
    const geometry: Geometry
    const numExtents: nat
    const callbacks: Callbacks
    const persists: (Call, nat) -> bool
    const coldEnabled: bool
    const coldWindow: nat

    var pool: Pool
    var putSeq: nat
    var calls: CallLog
    var retention: Retention
    ghost var owner: Owner
    /** The wheel was in order when it was configured, and has been since. */
    ghost var timely: bool

    ghost predicate Valid() reads this {
      && SizeClasses.Sound(geometry)
      && pool.extentBytes == geometry.extentBytes && |pool.extents| == numExtents
      && Shaped(geometry, pool.classes)
      && SlabInvariant.Sound(pool, owner)
      && WheelShape(retention) && (timely ==> WheelOk(pool.residents, retention))
    }

    /** What clients see. */
    ghost function View(): View reads this {
      Seen(pool)
    }

    /** An empty allocator with the complete class lattice of its geometry. */
    constructor (g: Geometry, numExtents: nat, callbacks: Callbacks, persists: (Call, nat) -> bool, coldEnabled: bool,
                 coldWindow: nat)
      requires SizeClasses.Sound(g)
      ensures Valid() && View() == map[] && Lru(pool) && timely && geometry == g && this.callbacks == callbacks
      ensures this.numExtents == (if numExtents == 0 then 1 else numExtents)
      ensures Untouched(pool) && pool.unbound == |pool.extents| && pool.used == 0 && !calls.refused
    {
      var p, r := BlankPool(g, if numExtents == 0 then 1 else numExtents);
      this.numExtents := |p.extents|;
      geometry, this.callbacks, this.persists, this.coldEnabled, this.coldWindow := g, callbacks, persists, coldEnabled,
      coldWindow;
      pool, retention := p, r;
      putSeq, calls, owner, timely := 0, CallLog(0, false), map[], true;
    }

    /** A persistence callback runs; the oracle answers. */
    method Ask(call: Call) returns (ok: bool)
      modifies this`calls
      ensures Reliable() ==> ok
    {
      ok := persists(call, calls.count);
      calls := CallLog(calls.count + 1, calls.refused || !ok);
    }

    /** No callback ever fails. */
    ghost predicate Reliable() {
      forall call, n: nat :: persists(call, n)
    }

    // ---------------------------------------------------------- primitive changes

    /** Forgets resident `k` and gives its slot, and possibly its extent, back. */
    method FreeSlot(k: BlockKey)
      requires Valid() && k in pool.residents
      modifies this`pool, this`owner
      ensures Valid() && View() == old(View()) - {k} && (old(Lru(pool)) ==> Lru(pool))
      ensures InPool(old(pool), old(pool).residents[k].ref)
      ensures old(pool).extents[old(pool).residents[k].ref.extent].cls == Some(old(pool).residents[k].ref.cls)
      ensures pool == FreedSlot(old(pool), k) && SameShape(old(pool), pool)
    {
      FreeFacts(geometry, pool, owner, k);
      WheelKept(timely, pool.residents, FreedSlot(pool, k).residents, retention);
      owner := owner - {PlaceOf(pool.residents[k].ref)};
      pool := FreedSlot(pool, k);
    }

    /** New metadata for `k` on the same slot, with the same deadline. */
    method SetMeta(k: BlockKey, n: Meta)
      requires Valid() && k in pool.residents
      requires var m := pool.residents[k];
        n == m.(refs := n.refs, referenced := n.referenced, pending := n.pending, ttl := n.ttl)
      requires n.pending ==> n.refs > 0
      modifies this`pool
      ensures Valid() && View() == old(View())[k := ViewOf(n)] && (old(Lru(pool)) ==> Lru(pool))
      ensures InPool(old(pool), old(pool).residents[k].ref) && pool == Revised(old(pool), k, n)
        && SameShape(old(pool), pool)
    {
      assert KeyOk(pool, owner, k);
      ReviseFacts(geometry, pool, owner, k, n);
      WheelKept(timely, pool.residents, Revised(pool, k, n).residents, retention);
      pool := Revised(pool, k, n);
    }

    /** A read of `k`: both orders, the operation counter and the reference bit follow. Anything
        else leaves them alone. */
    ghost predicate ReadIf(p: Pool, q: Pool, k: BlockKey, read: bool) {
      && k in p.residents && k in q.residents && InPool(p, p.residents[k].ref) && |q.classes| == |p.classes|
      && var c := p.residents[k].ref.cls;
         if read then
           && q.ring == Refreshed(p.ring, k) && q.classes[c].ring == Refreshed(p.classes[c].ring, k)
           && q.activity == p.activity + 1
           && q.residents[k].referenced && q.residents[k].access == p.activity + 1
         else
           && q.ring == p.ring && q.classes[c].ring == p.classes[c].ring && q.activity == p.activity
           && q.residents[k].referenced == p.residents[k].referenced
           && q.residents[k].access == p.residents[k].access
    }

    lemma {:induction false} TouchedReads(p: Pool, k: BlockKey)
      requires k in p.residents && InPool(p, p.residents[k].ref)
      ensures var q, c := Touched(p, k), p.residents[k].ref.cls;
        && ReadIf(p, q, k, true) && ReadIf(p, p, k, false)
        && q.residents[k] == p.residents[k].(access := p.activity + 1, referenced := true)
        && q.protectedBytes == p.protectedBytes && q.classes[c] == p.classes[c].(ring := q.classes[c].ring)
    {
    }

    /** Moves `k` to the end of both sweep orders. */
    method Touch(k: BlockKey)
      requires Valid() && k in pool.residents
      modifies this`pool
      ensures Valid() && View() == old(View()) && (old(Lru(pool)) ==> Lru(pool))
      ensures pool.ring == Refreshed(old(pool).ring, k)
      ensures InPool(old(pool), old(pool).residents[k].ref) && pool == Touched(old(pool), k)
    {
      TouchKeeps(pool, owner, k);
      TouchShape(pool, k);
      ShapeKept(geometry, pool, Touched(pool, k));
      WheelKept(timely, pool.residents, Touched(pool, k).residents, retention);
      if Lru(pool) { TouchLru(pool, owner, k); }
      pool := Touched(pool, k);
    }

    // ---------------------------------------------------------- holders

    method TouchIf(k: BlockKey, refresh: bool)
      requires Valid() && k in pool.residents
      modifies this`pool
      ensures Valid() && (old(Lru(pool)) ==> Lru(pool)) && View() == old(View())
      ensures ReadIf(old(pool), pool, k, refresh)
      ensures pool.residents[k] == old(pool).residents[k].(access := pool.residents[k].access,
                                                           referenced := pool.residents[k].referenced)
      ensures pool.protectedBytes == old(pool).protectedBytes && OverBudget(k) == old(OverBudget(k))
    {
      assert KeyOk(pool, owner, k);
      TouchedReads(pool, k);
      if refresh { Touch(k); }
    }

    lemma {:induction false} RevisedReads(p: Pool, q: Pool, k: BlockKey, n: Meta, read: bool)
      requires ReadIf(p, q, k, read) && InPool(q, q.residents[k].ref) && q.residents[k].ref == p.residents[k].ref
      requires n == q.residents[k].(refs := n.refs, until := n.until, ttl := n.ttl)
      ensures ReadIf(p, Revised(q, k, n), k, read)
    {
    }

    method Get(k: BlockKey) returns (r: Option<SlotRef>)
      requires Valid()
      modifies this`pool
      ensures Valid() && View() == old(View()) && (old(Lru(pool)) ==> Lru(pool))
      ensures r == if Visible(old(View()), k) then Some(old(View())[k].ref) else None
      ensures if r.Some? then ReadIf(old(pool), pool, k, true) else pool == old(pool)
    {
      if k !in pool.residents || pool.residents[k].pending { return None; }
      Touch(k);
      TouchedReads(old(pool), k);
      return Some(pool.residents[k].ref);
    }

    method Contains(k: BlockKey) returns (found: bool)
      requires Valid()
      ensures found == Visible(View(), k)
    {
      return k in pool.residents && !pool.residents[k].pending;
    }

    method GetAndPin(k: BlockKey) returns (r: Option<SlotRef>)
      requires Valid()
      modifies this`pool
      ensures Valid() && (old(Lru(pool)) ==> Lru(pool))
      ensures r == if Visible(old(View()), k) then Some(old(View())[k].ref) else None
      ensures if r.Some? then Step(old(View()), Event.Pinned(k), View()) else View() == old(View())
      ensures if r.Some? then ReadIf(old(pool), pool, k, true) else pool == old(pool)
    {
      if k !in pool.residents || pool.residents[k].pending { return None; }
      TouchIf(k, true);
      var m := pool.residents[k];
      RevisedReads(old(pool), pool, k, m.(refs := m.refs + 1), true);
      SetMeta(k, m.(refs := m.refs + 1));
      return Some(m.ref);
    }

    /** One more holder of `k`, unless it is gone or going. */
    method Pin(k: BlockKey) returns (ok: bool)
      requires Valid()
      modifies this`pool
      ensures Valid() && (old(Lru(pool)) ==> Lru(pool))
      ensures ok <==> Visible(old(View()), k)
      ensures SameShape(old(pool), pool)
      ensures if ok then Step(old(View()), Event.Pinned(k), View()) else View() == old(View())
    {
      if k !in pool.residents || pool.residents[k].pending { return false; }
      var m := pool.residents[k];
      SetMeta(k, m.(refs := m.refs + 1));
      return true;
    }

    /** One holder less; the last one of a key that is going frees its slot. */
    method Unpin(k: BlockKey) returns (ok: bool)
      requires Valid()
      modifies this`pool, this`owner
      ensures Valid() && (old(Lru(pool)) ==> Lru(pool))
      ensures ok <==> k in old(View()) && old(View())[k].refs > 0
      ensures if ok then Step(old(View()), Event.Unpinned(k), View()) else View() == old(View())
    {
      if k !in pool.residents || pool.residents[k].refs == 0 { return false; }
      var m := pool.residents[k];
      if m.refs == 1 && m.pending {
        FreeSlot(k);
      } else {
        SetMeta(k, m.(refs := m.refs - 1));
      }
      return true;
    }

    /** Hides a pinned key, frees an unpinned one. */
    method Remove(k: BlockKey) returns (r: RemoveResult)
      requires Valid()
      modifies this`pool, this`owner
      ensures Valid() && (old(Lru(pool)) ==> Lru(pool))
      ensures r == NotFound <==> k !in old(View())
      ensures r == Deferred <==> k in old(View()) && old(View())[k].refs > 0
      ensures if k in old(View()) then Step(old(View()), Removed(k), View()) else View() == old(View())
    {
      if k !in pool.residents { return NotFound; }
      var m := pool.residents[k];
      if m.refs > 0 {
        SetMeta(k, m.(pending := true, referenced := false));
        return Deferred;
      }
      FreeSlot(k);
      return Gone;
    }

    // ---------------------------------------------------------- eviction

    /** Evictions are made durable before they happen. */
    ghost predicate Durable() {
      callbacks.onBind && callbacks.onSlot && callbacks.onExtent
    }

    /** Sweeps class `c` for a victim; only the order and reference bits change. */
    method Sweep(c: nat) returns (victim: Option<BlockKey>, ghost stop: nat)
      requires Valid() && c < |pool.classes|
      modifies this`pool
      ensures Valid() && View() == old(View()) && SameShape(old(pool), pool) && (old(Lru(pool)) ==> Lru(pool))
      ensures c < |pool.classes| && pool == Sweeping(old(pool), c, pool.classes[c].ring, pool.residents)
      ensures SameButBits(old(pool).residents, pool.residents)
      ensures victim.None? ==> NoCandidate(old(pool).classes[c].ring, old(pool).residents)
      ensures victim.Some? ==>
        && victim.value in old(pool).residents && Free(old(pool).residents[victim.value])
        && old(pool).residents[victim.value].ref.cls == c
        && ClockChoice(old(pool).classes[c].ring, old(pool).residents, victim.value)
      ensures victim.Some? ==> HandStops(old(pool), pool, c, stop, victim.value)
      ensures victim.None? ==> HandPasses(old(pool), pool, c)
    {
      assert ClassOk(pool, c);
      forall k | k in pool.classes[c].ring
        ensures k in pool.residents && pool.residents[k].ref.cls == c { assert MemberOk(pool, c, k); }
      var order, t, found;
      order, t, found, stop := SweepClass(pool.classes[c].ring, pool.residents);
      Turn(c, order, t);
      victim := found;
    }

    /** A new order of class `c` and new reference bits. */
    method Turn(c: nat, order: seq<BlockKey>, t: map<BlockKey, Meta>)
      requires Valid() && c < |pool.classes| && SameButBits(pool.residents, t)
      requires Distinct(order) && |order| == |pool.classes[c].ring| && forall x ::
        x in order <==> x in pool.classes[c].ring
      modifies this`pool
      ensures Valid() && View() == old(View()) && SameShape(old(pool), pool) && (old(Lru(pool)) ==> Lru(pool))
      ensures pool == Sweeping(old(pool), c, order, t)
    {
      assert ClassOk(pool, c);
      SweepKeeps(pool, owner, c, order, t);
      SweepShape(pool, c, order, t);
      ShapeKept(geometry, pool, Sweeping(pool, c, order, t));
      WheelKept(timely, pool.residents, t, retention);
      if Lru(pool) { ByAccessSame(pool.ring, pool.residents, t); }
      pool := Sweeping(pool, c, order, t);
    }

    /** The sweep of class `c` stopped at index `i` of its order. */
    ghost predicate HandStops(p: Pool, q: Pool, c: nat, i: nat, k: BlockKey) {
      && c < |p.classes| && c < |q.classes| && i < |p.classes[c].ring| && p.classes[c].ring[i] == k
      && StopsAt(p.classes[c].ring, p.residents, q.classes[c].ring, q.residents, i)
    }

    ghost predicate HandPasses(p: Pool, q: Pool, c: nat) {
      c < |p.classes| && c < |q.classes| && FindsNone(p.classes[c].ring, p.residents, q.classes[c].ring, q.residents)
    }

    /** An eviction took what is at index `i` of the order of class `c`. */
    ghost predicate HandTakes(p: Pool, q: Pool, c: nat, i: nat, k: BlockKey) {
      && c < |p.classes| && c < |q.classes| && i < |p.classes[c].ring| && p.classes[c].ring[i] == k
      && TakesAt(p.classes[c].ring, p.residents, q.classes[c].ring, q.residents, i)
    }

    /** A sweep changes only reference bits and the order of the class. */
    ghost predicate SweptOnly(p: Pool, q: Pool, c: nat) {
      && SameShape(p, q) && q.unbound == p.unbound && q.extents == p.extents && q.activity == p.activity
      && c < |p.classes| && c < |q.classes| && q.classes[c].free == p.classes[c].free
    }

    method Choose(c: nat) returns (victim: Option<BlockKey>, ghost stop: nat)
      requires Valid() && c < |pool.classes|
      modifies this`pool
      ensures Valid() && View() == old(View()) && SweptOnly(old(pool), pool, c) && (old(Lru(pool)) ==> Lru(pool))
      ensures victim.None? ==> NoCandidate(old(pool).classes[c].ring, old(pool).residents)
      ensures victim.Some? ==>
        && victim.value in pool.residents && Free(pool.residents[victim.value])
        && pool.residents[victim.value].ref.cls == c
        && ClockChoice(old(pool).classes[c].ring, old(pool).residents, victim.value)
      ensures victim.Some? ==> HandStops(old(pool), pool, c, stop, victim.value)
      ensures victim.None? ==> HandPasses(old(pool), pool, c)
      ensures Distinct(old(pool).classes[c].ring)
    {
      assert ClassOk(pool, c);
      victim, stop := Sweep(c);
    }

    /** Evicts one resident nobody holds or protects, once that is durable. */
    method EvictSlot(k: BlockKey) returns (ok: bool, ghost wiped: set<Place>)
      requires Valid() && k in pool.residents && Free(pool.residents[k])
      modifies this`pool, this`owner, this`calls
      ensures Valid() && SameShape(old(pool), pool) && (old(Lru(pool)) ==> Lru(pool))
      ensures !ok ==> callbacks.onSlot && !Reliable() && wiped == {} && pool == old(pool)
      ensures ok ==> View() == old(View()) - {k}
      ensures InPool(old(pool), old(pool).residents[k].ref)
      ensures old(pool).extents[old(pool).residents[k].ref.extent].cls == Some(old(pool).residents[k].ref.cls)
      ensures ok ==> pool == FreedSlot(old(pool), k)
      ensures ok && Durable() ==> ClearsOnlyGone(old(View()), {k}, wiped)
    {
      WipeOne(pool, owner, k);
      var ref := pool.residents[k].ref;
      assert KeyOk(pool, owner, k);
      wiped := {};
      if callbacks.onSlot {
        ok := Ask(SlotCall(ref));
        if !ok { return; }
        wiped := {PlaceOf(ref)};
      }
      FreeSlot(k);
      ok := true;
    }

    /** Evicts one resident of class `c` nobody holds or protects, once that is durable: its slot
        becomes free, or its extent is given back. */
    method EvictFrom(c: nat, k: BlockKey) returns (ok: bool, ghost wiped: set<Place>)
      requires Valid() && k in pool.residents && Free(pool.residents[k]) && pool.residents[k].ref.cls == c
      requires c < |pool.classes|
      modifies this`pool, this`owner, this`calls
      ensures Valid() && SameShape(old(pool), pool) && (old(Lru(pool)) ==> Lru(pool))
      ensures !ok ==> callbacks.onSlot && !Reliable() && wiped == {} && pool == old(pool)
      ensures ok ==> Evicts(old(pool), pool, [k], wiped, Durable())
      ensures ok && |old(pool).classes[c].free.rr| < STRIPE_WAYS ==>
        pool.unbound == old(pool).unbound && pool.classes[c].free.rr != []
      ensures ok ==> Frees(old(pool), pool, c)
      ensures ok ==> pool.residents == old(pool).residents - {k}
      ensures ok ==> c < |pool.classes| && pool.classes[c].ring == Without(old(pool).classes[c].ring, k)
    {
      ghost var p := pool;
      FreedRoom(pool, owner, k);
      ok, wiped := EvictSlot(k);
      if ok { EvictsOne(p, pool, k, wiped, Durable()); }
    }

    /** One more free slot in class `c`, or one more unbound extent. */
    predicate Frees(p: Pool, q: Pool, c: nat) {
      && c < |p.classes| && c < |q.classes|
      && q.classes[c].free.count <= p.classes[c].free.count + 1
      && (q.unbound == p.unbound + 1 || (q.unbound == p.unbound && q.classes[c].free.count > p.classes[c].free.count))
    }

    /** From the sweep `q` of `p` to the eviction `u`. */
    lemma {:induction false} SweepThenEvict(p: Pool, q: Pool, u: Pool, c: nat, stop: nat, k: BlockKey)
      requires SweptOnly(p, q, c) && HandStops(p, q, c, stop, k) && Distinct(p.classes[c].ring)
      requires Frees(q, u, c) && u.residents == q.residents - {k} && u.classes[c].ring == Without(q.classes[c].ring, k)
      ensures Frees(p, u, c) && HandTakes(p, u, c, stop, k)
    {
      StopThenTake(p.classes[c].ring, p.residents, q.classes[c].ring, q.residents, stop);
    }

    /** One CLOCK eviction in class `c`: the second-chance choice goes, if there is any
        candidate and its eviction can be made durable. */
    method EvictOne(c: nat) returns (ok: bool, evicted: seq<BlockKey>, ghost wiped: set<Place>, ghost stop: nat)
      requires Valid() && c < |pool.classes|
      modifies this`pool, this`owner, this`calls
      ensures Valid() && SameShape(old(pool), pool) && (old(Lru(pool)) ==> Lru(pool))
      ensures Evicts(old(pool), pool, evicted, wiped, Durable())
      ensures !ok ==> evicted == [] && wiped == {} && SweptOnly(old(pool), pool, c)
      ensures !ok && (!callbacks.onSlot || Reliable()) ==> NoCandidate(old(pool).classes[c].ring, old(pool).residents)
      ensures !ok ==>
        || HandPasses(old(pool), pool, c)
        || (var s := old(pool).classes[c].ring; stop < |s| && HandStops(old(pool), pool, c, stop, s[stop]))
      ensures ok ==> |evicted| == 1 && ClockChoice(old(pool).classes[c].ring, old(pool).residents, evicted[0])
      ensures ok && |old(pool).classes[c].free.rr| < STRIPE_WAYS ==>
        pool.unbound == old(pool).unbound && pool.classes[c].free.rr != []
      ensures ok ==> Frees(old(pool), pool, c) && HandTakes(old(pool), pool, c, stop, evicted[0])
    {
      var victim;
      victim, stop := Choose(c);
      if victim.None? {
        EvictsNone(old(pool), pool, Durable());
        return false, [], {}, 0;
      }
      ok, evicted, wiped := EvictSwept(c, victim.value, old(pool), stop);
    }

    /** The eviction of what a sweep of `p` stopped at. */
    method EvictSwept(c: nat, k: BlockKey, ghost p: Pool, ghost stop: nat)
      returns (ok: bool, evicted: seq<BlockKey>, ghost wiped: set<Place>)
      requires Valid() && k in pool.residents && Free(pool.residents[k]) && pool.residents[k].ref.cls == c
      requires SweptOnly(p, pool, c) && HandStops(p, pool, c, stop, k) && Distinct(p.classes[c].ring)
        && View() == Seen(p)
      modifies this`pool, this`owner, this`calls
      ensures Valid() && SameShape(old(pool), pool) && (old(Lru(pool)) ==> Lru(pool))
      ensures Evicts(p, pool, evicted, wiped, Durable())
      ensures !ok ==> callbacks.onSlot && !Reliable() && wiped == {} && evicted == [] && pool == old(pool)
      ensures ok ==> evicted == [k]
      ensures ok && |p.classes[c].free.rr| < STRIPE_WAYS ==> pool.unbound == p.unbound && pool.classes[c].free.rr != []
      ensures ok ==> Frees(p, pool, c) && HandTakes(p, pool, c, stop, k)
    {
      ghost var q := pool;
      EvictsNone(p, q, Durable());
      ok, wiped := EvictFrom(c, k);
      if !ok { return false, [], {}; }
      SweepThenEvict(p, q, pool, c, stop, k);
      evicted := [k];
    }

    // ---------------------------------------------------------- extents

    /** Carves the unbound extent `e` into slots of class `c`. Unless the caller has prepared
        the table, the extent's records are wiped first. */
    method BindExtent(c: nat, e: nat, prepared: bool) returns (r: BindResult, ghost wiped: set<Place>)
      requires Valid() && c < |pool.classes| && e < |pool.extents|
      modifies this`pool, this`calls
      ensures Valid() && SameShape(old(pool), pool) && (old(Lru(pool)) ==> Lru(pool))
      ensures pool.residents == old(pool).residents
      ensures r == Unavailable <==> old(pool).extents[e].cls.Some?
      ensures r == PersistenceError ==> !prepared && callbacks.onBind && !Reliable()
      ensures r != Done ==> pool == old(pool) && wiped == {}
      ensures prepared ==> calls == old(calls)
      ensures r == Done ==> pool.unbound == old(pool).unbound - 1 && pool.classes[c].free.rr != []
      ensures r == Done ==> |pool.classes[c].free.rr| == |old(pool).classes[c].free.rr| + 1
      ensures r == Done ==> pool.extents == old(pool).extents[e := pool.extents[e]] && pool.extents[e].cls == Some(c)
      ensures r == Done ==> exists free :: Carved(old(pool), c, e, free) && pool == BoundTo(old(pool), c, e, free)
      ensures r == Done ==> wiped == if prepared || !callbacks.onBind then {} else Places(e, pool.extentBytes)
    {
      wiped := {};
      if pool.extents[e].cls.Some? { return Unavailable, {}; }
      if !prepared && callbacks.onBind {
        var yes := Ask(BindCall(e));
        if !yes { return PersistenceError, {}; }
        wiped := Places(e, pool.extentBytes);
      }
      CarveExtent(c, e);
      return Done, wiped;
    }

    method CarveExtent(c: nat, e: nat)
      requires Valid() && c < |pool.classes| && e < |pool.extents| && pool.extents[e].cls.None?
      modifies this`pool
      ensures Valid() && SameShape(old(pool), pool) && (old(Lru(pool)) ==> Lru(pool))
      ensures pool.residents == old(pool).residents
      ensures pool.unbound == old(pool).unbound - 1 && pool.classes[c].free.rr != []
      ensures |pool.classes[c].free.rr| == |old(pool).classes[c].free.rr| + 1
      ensures pool.extents == old(pool).extents[e := pool.extents[e]] && pool.extents[e].cls == Some(c)
      ensures exists free :: Carved(old(pool), c, e, free) && pool == BoundTo(old(pool), c, e, free)
    {
      assert ClassOk(pool, c) && FreeOk(pool, c, e);
      var free := F.Carve(pool.classes[c].free, e, pool.classes[c].perExtent);
      BindFacts(geometry, pool, owner, c, e, free);
      pool := BoundTo(pool, c, e, free);
    }

    /** Binds the first unbound extent to class `c`. */
    method BindFreeExtent(c: nat) returns (r: BindResult, ghost wiped: set<Place>)
      requires Valid() && c < |pool.classes|
      modifies this`pool, this`calls
      ensures Valid() && View() == old(View()) && SameShape(old(pool), pool) && (old(Lru(pool)) ==> Lru(pool))
      ensures r == Unavailable <==> old(pool).unbound == 0
      ensures r == PersistenceError ==> !Reliable()
      ensures r != Done ==> pool == old(pool) && wiped == {}
      ensures r == Done ==> pool.unbound == old(pool).unbound - 1 && pool.classes[c].free.rr != []
      ensures r == Done ==> |pool.classes[c].free.rr| == |old(pool).classes[c].free.rr| + 1
      ensures ClearsOnlyGone(old(View()), {}, wiped)
    {
      if pool.unbound == 0 { return Unavailable, {}; }
      assert Counters(pool);
      var e := FirstUnbound(pool.extents);
      assert ExtentOk(pool, e);
      WipeExtent(pool, owner, e, {});
      r, wiped := BindExtent(c, e, false);
    }

    // ---------------------------------------------------------- whole-extent steals

    /** Forgets every resident of extent `e`, newest first. */
    method EmptyExtent(e: nat) returns (evicted: seq<BlockKey>)
      requires Valid() && e < |pool.extents|
      modifies this`pool, this`owner
      ensures Valid() && SameShape(old(pool), pool) && (old(Lru(pool)) ==> Lru(pool))
      ensures pool.residents == old(pool).residents - Elems(evicted)
      ensures Emptying(old(pool), pool, e, evicted) && pool.extents[e].list == []
    {
      var q := pool;
      ghost var own := owner;
      evicted := [];
      EmptyStarts(geometry, pool, owner, e);
      while q.extents[e].list != []
        invariant EmptySoFar(geometry, pool, q, own, e, evicted)
        decreases |q.extents[e].list|
        modifies {}
      {
        var k := q.extents[e].list[0];
        EmptyStep(geometry, pool, q, own, e, evicted);
        own := own - {PlaceOf(q.residents[k].ref)};
        q := FreedSlot(q, k);
        evicted := evicted + [k];
      }
      WheelKept(timely, pool.residents, q.residents, retention);
      pool, owner := q, own;
    }

    /** Gives an empty extent back to the pool. */
    method Unbind(e: nat)
      requires Valid() && Emptied(pool, e)
      modifies this`pool
      ensures Valid() && SameShape(old(pool), pool) && (old(Lru(pool)) ==> Lru(pool))
      ensures pool.residents == old(pool).residents && pool.extents[e].cls.None?
        && pool.unbound == old(pool).unbound + 1
    {
      ReleaseFacts(geometry, pool, owner, e);
      pool := Released(pool, e);
    }

    /** Empties the bound extent `e` and gives it back, if the last resident has not done so. */
    method ClearExtent(e: nat) returns (evicted: seq<BlockKey>)
      requires Valid() && e < |pool.extents| && pool.extents[e].cls.Some?
      modifies this`pool, this`owner
      ensures Valid() && SameShape(old(pool), pool) && (old(Lru(pool)) ==> Lru(pool))
      ensures evicted == old(pool).extents[e].list && pool.residents == old(pool).residents - Elems(evicted)
      ensures pool.extents[e].cls.None? && pool.unbound == old(pool).unbound + 1
    {
      evicted := EmptyExtent(e);
      if pool.extents[e].cls.Some? {
        assert ExtentOk(pool, e);
        Unbind(e);
      }
    }

    /** Empties extent `e` and carves it for class `c`. */
    method Rebind(e: nat, c: nat) returns (evicted: seq<BlockKey>)
      requires Valid() && e < |pool.extents| && c < |pool.classes| && pool.extents[e].cls.Some?
      modifies this`pool, this`owner, this`calls
      ensures Valid() && SameShape(old(pool), pool) && (old(Lru(pool)) ==> Lru(pool))
      ensures evicted == old(pool).extents[e].list && pool.residents == old(pool).residents - Elems(evicted)
      ensures pool.unbound == old(pool).unbound && pool.classes[c].free.rr != [] && calls == old(calls)
    {
      evicted := ClearExtent(e);
      var r;
      ghost var w;
      r, w := BindExtent(c, e, true);
    }

    /** Takes extent `e` from its class, with all its residents, and binds it to class `c`. An
        extent with a held or protected resident is never taken, and the extent's records are
        wiped before any resident is forgotten. */
    method StealExtent(e: nat, c: nat) returns (r: BindResult, evicted: seq<BlockKey>, ghost wiped: set<Place>)
      requires Valid() && e < |pool.extents| && c < |pool.classes|
      modifies this`pool, this`owner, this`calls
      ensures Valid() && SameShape(old(pool), pool) && (old(Lru(pool)) ==> Lru(pool))
      ensures r == Unavailable <==>
        old(pool).extents[e].cls.None? || old(pool).extents[e].pinned != 0 || old(pool).extents[e].protected != 0
      ensures r == PersistenceError ==> callbacks.onBind && !Reliable()
      ensures r != Done ==> evicted == [] && wiped == {} && pool == old(pool)
      ensures r == Done ==> evicted == old(pool).extents[e].list
      ensures r == Done ==> pool.unbound == old(pool).unbound && pool.classes[c].free.rr != []
      ensures Evicts(old(pool), pool, evicted, wiped, Durable())
    {
      var x := pool.extents[e];
      ghost var p, own := pool, owner;
      EvictsNone(p, p, Durable());
      if x.cls.None? || x.pinned != 0 || x.protected != 0 { return Unavailable, [], {}; }
      wiped := {};
      if callbacks.onBind {
        var yes := Ask(BindCall(e));
        if !yes { return PersistenceError, [], {}; }
        wiped := Places(e, pool.extentBytes);
      }
      evicted := Rebind(e, c);
      r := Done;
      EvictsExtent(p, pool, own, e, wiped, Durable());
    }

    /** Steals the extent of another class whose residents were used longest ago on average. */
    method StealExtentFor(c: nat, least: nat) returns (r: BindResult, evicted: seq<BlockKey>, ghost wiped: set<Place>)
      requires Valid() && c < |pool.classes|
      modifies this`pool, this`owner, this`calls
      ensures Valid() && SameShape(old(pool), pool) && (old(Lru(pool)) ==> Lru(pool))
      ensures Evicts(old(pool), pool, evicted, wiped, Durable())
      ensures r == Unavailable <==> !AnyStealable(old(pool), c, least)
      ensures r == PersistenceError ==> !Reliable()
      ensures r != Done ==> evicted == [] && pool == old(pool) && wiped == {}
      ensures r == Done ==> pool.unbound == old(pool).unbound && pool.classes[c].free.rr != []
      ensures r == Done ==> StealsList(old(pool), c, least, evicted)
    {
      ghost var p := pool;
      EvictsNone(p, p, Durable());
      forall e: nat | e < |p.extents| ensures p.extents[e].count >= 0 { assert ExtentOk(p, e); }
      var best := PickStealable(pool, c, least);
      if best.None? { return Unavailable, [], {}; }
      r, evicted, wiped := StealExtent(best.value, c);
    }

    /** How many of the latest inserts count as recent. */
    function Window(): nat reads this {
      if coldWindow != 0 then coldWindow else |pool.residents|
    }

    /** Inserts before this one are cold; nothing is, as long as there are too few. */
    function ColdLimit(): nat reads this {
      if coldEnabled && 0 < Window() < putSeq then putSeq - Window() else 0
    }

    /** An extent is cold if more inserts than the window allows came after its youngest. */
    lemma {:induction false} ColdMeans(c: nat, e: nat)
      requires e < |pool.extents|
      ensures Cold(pool, c, ColdLimit(), e) <==>
        && Stealable(pool, c, 0, e) && pool.extents[e].count != 0 && coldEnabled
        && var window := if coldWindow != 0 then coldWindow else |pool.residents|;
           window > 0 && putSeq > pool.extents[e].youngest + window
    {
    }

    /** Steals the least used extent whose residents are all older than the window. */
    method StealColdExtentFor(c: nat) returns (r: BindResult, evicted: seq<BlockKey>, ghost wiped: set<Place>)
      requires Valid() && c < |pool.classes|
      modifies this`pool, this`owner, this`calls
      ensures Valid() && SameShape(old(pool), pool) && (old(Lru(pool)) ==> Lru(pool))
      ensures Evicts(old(pool), pool, evicted, wiped, Durable())
      ensures r == Unavailable <==> !AnyCold(old(pool), c, old(ColdLimit()))
      ensures r == PersistenceError ==> !Reliable()
      ensures r != Done ==> evicted == [] && pool == old(pool) && wiped == {}
      ensures r == Done ==> pool.unbound == old(pool).unbound && pool.classes[c].free.rr != []
      ensures r == Done ==> StealsColdList(old(pool), c, old(ColdLimit()), evicted)
    {
      ghost var p := pool;
      EvictsNone(p, p, Durable());
      var window := Window();
      if !coldEnabled || window == 0 || putSeq <= window {
        forall e: nat | e < |p.extents| ensures !Cold(p, c, 0, e) { assert p.extents[e].youngest >= 0; }
        return Unavailable, [], {};
      }
      var limit := putSeq - window;
      assert limit == ColdLimit();
      var best := PickCold(pool, c, limit);
      if best.None? { return Unavailable, [], {}; }
      r, evicted, wiped := StealExtent(best.value, c);
      assert Cold(p, c, limit, best.value);
    }

    /** Background rebalancing: moves one extent from class `donor` to class `target`. */
    method StealFrom(donor: nat, target: nat) returns (ok: bool, evicted: seq<BlockKey>, ghost wiped: set<Place>)
      requires Valid()
      modifies this`pool, this`owner, this`calls
      ensures Valid() && SameShape(old(pool), pool) && (old(Lru(pool)) ==> Lru(pool))
      ensures Evicts(old(pool), pool, evicted, wiped, Durable())
      ensures !ok ==> evicted == [] && pool == old(pool)
      ensures ok ==>
        donor != target && donor < |pool.classes| && target < |pool.classes| && pool.classes[target].free.rr != []
      ensures ok ==> exists e: nat :: MoveChosen(old(pool), donor, e) && evicted == old(pool).extents[e].list
      ensures !ok && Reliable() && donor != target && donor < |pool.classes| && target < |pool.classes| ==>
        forall e: nat :: !Movable(old(pool), donor, e)
    {
      ghost var p := pool;
      EvictsNone(p, p, Durable());
      if donor == target || donor >= |pool.classes| || target >= |pool.classes| { return false, [], {}; }
      forall e: nat | e < |p.extents| ensures p.extents[e].count >= 0 { assert ExtentOk(p, e); }
      var best := PickMovable(pool, donor);
      if best.None? { return false, [], {}; }
      var r;
      r, evicted, wiped := StealExtent(best.value, target);
      ok := r == Done;
    }

    // ---------------------------------------------------------- placing a value

    /** Class `c` has no free slot, and there is no way to get one. */
    ghost predicate Stuck(p: Pool, c: nat) {
      NoVictim(p, c) && p.unbound == 0 && p.classes[c].free.rr == []
    }

    /** Keeps binding free extents until class `c` can stripe over eight, or none is left. */
    method BindStripes(c: nat) returns (failed: bool, ghost wiped: set<Place>)
      requires Valid() && c < |pool.classes|
      modifies this`pool, this`calls
      ensures Valid() && View() == old(View()) && SameShape(old(pool), pool) && (old(Lru(pool)) ==> Lru(pool))
      ensures ClearsOnlyGone(old(View()), {}, wiped)
      ensures old(pool).unbound == 0 ==> !failed && pool == old(pool) && wiped == {}
      ensures !failed ==> |pool.classes[c].free.rr| >= STRIPE_WAYS || pool.unbound == 0
      ensures failed ==> !Reliable()
      ensures pool.classes[c].free.rr == [] ==> pool == old(pool)
      ensures |pool.classes[c].free.rr| - |old(pool).classes[c].free.rr| == old(pool).unbound - pool.unbound >= 0
      ensures pool != old(pool) ==> |pool.classes[c].free.rr| <= STRIPE_WAYS
    {
      wiped := {};
      while |pool.classes[c].free.rr| < STRIPE_WAYS
        invariant Valid() && View() == old(View()) && SameShape(old(pool), pool) && (old(Lru(pool)) ==> Lru(pool))
        invariant ClearsOnlyGone(old(View()), {}, wiped)
        invariant old(pool).unbound == 0 ==> pool == old(pool) && wiped == {}
        invariant pool.classes[c].free.rr == [] ==> pool == old(pool)
        invariant |pool.classes[c].free.rr| - |old(pool).classes[c].free.rr| == old(pool).unbound - pool.unbound >= 0
        invariant pool != old(pool) ==> |pool.classes[c].free.rr| <= STRIPE_WAYS
        decreases pool.unbound
      {
        assert Counters(pool);
        ghost var w;
        var r;
        r, w := BindFreeExtent(c);
        wiped := wiped + w;
        if r == PersistenceError { return true, wiped; }
        if r == Unavailable { break; }
      }
      failed := false;
    }

    /** First choice for a class without a free slot: grow it at the cost of a class above
        the stripe floor, or take a cold extent. */
    method GrowRoom(c: nat) returns (r: BindResult, evicted: seq<BlockKey>, ghost wiped: set<Place>)
      requires Valid() && c < |pool.classes|
      modifies this`pool, this`owner, this`calls
      ensures Valid() && SameShape(old(pool), pool) && (old(Lru(pool)) ==> Lru(pool))
      ensures Evicts(old(pool), pool, evicted, wiped, Durable())
      ensures r != Done ==> evicted == [] && wiped == {} && pool == old(pool)
      ensures r == Done ==> pool.classes[c].free.rr != [] && pool.unbound == old(pool).unbound
      ensures r == PersistenceError ==> !Reliable()
      ensures r == Unavailable <==> !CanGrow(old(pool), c) && !AnyCold(old(pool), c, old(ColdLimit()))
      ensures r == Done ==> GrowVictims(old(pool), c, old(ColdLimit()), evicted)
    {
      r, evicted, wiped := Expand(c);
      if r == Unavailable { r, evicted, wiped := StealColdExtentFor(c); }
    }

    /** A class below the stripe floor takes an extent from one above it. */
    method Expand(c: nat) returns (r: BindResult, evicted: seq<BlockKey>, ghost wiped: set<Place>)
      requires Valid() && c < |pool.classes|
      modifies this`pool, this`owner, this`calls
      ensures Valid() && SameShape(old(pool), pool) && (old(Lru(pool)) ==> Lru(pool))
      ensures Evicts(old(pool), pool, evicted, wiped, Durable())
      ensures r != Done ==> evicted == [] && wiped == {} && pool == old(pool)
      ensures r == Done ==> pool.classes[c].free.rr != [] && pool.unbound == old(pool).unbound
      ensures r == PersistenceError ==> !Reliable()
      ensures r == Unavailable <==> !CanGrow(old(pool), c)
      ensures r == Done ==> StealsList(old(pool), c, STRIPE_WAYS, evicted)
    {
      EvictsNone(pool, pool, Durable());
      if pool.classes[c].bound >= STRIPE_WAYS { return Unavailable, [], {}; }
      r, evicted, wiped := StealExtentFor(c, STRIPE_WAYS);
    }

    /** Second choice: evict one resident of the class, or else take any extent. */
    method TakeRoom(c: nat) returns (made: bool, evicted: seq<BlockKey>, ghost wiped: set<Place>)
      requires Valid() && c < |pool.classes| && |pool.classes[c].free.rr| < STRIPE_WAYS
      modifies this`pool, this`owner, this`calls
      ensures Valid() && SameShape(old(pool), pool) && (old(Lru(pool)) ==> Lru(pool))
      ensures Evicts(old(pool), pool, evicted, wiped, Durable())
      ensures !made ==> evicted == [] && wiped == {}
      ensures made ==> pool.classes[c].free.rr != [] && pool.unbound == old(pool).unbound
      ensures Reliable() ==> (made <==> !NoVictim(old(pool), c))
      ensures Reliable() && made ==> TakeVictims(old(pool), c, evicted)
    {
      ghost var stop;
      made, evicted, wiped, stop := EvictOne(c);
      if made {
        ChoiceIsCandidate(old(pool).classes[c].ring, old(pool).residents, evicted[0]);
        return;
      }
      ghost var p, q := old(pool), pool;
      made, evicted, wiped := TakeExtent(c);
      TookExtent(p, q, pool, c, evicted, wiped);
    }

    lemma {:induction false} TookExtent(p: Pool, q: Pool, u: Pool, c: nat, evicted: seq<BlockKey>, wiped: set<Place>)
      requires SweptOnly(p, q, c) && Evicts(p, q, [], {}, Durable()) && Evicts(q, u, evicted, wiped, Durable())
      ensures Evicts(p, u, evicted, wiped, Durable())
      ensures StealsList(q, c, 0, evicted) ==> StealsList(p, c, 0, evicted)
      ensures AnyStealable(q, c, 0) <==> AnyStealable(p, c, 0)
    {
      assert Seen(q) == Seen(p) by { assert Elems([]) == {}; assert Seen(p) - {} == Seen(p); }
      EvictsAfter(p, q, u, {}, evicted, wiped, Durable());
      assert {} + wiped == wiped;
      SameSteals(p, q, c, evicted);
    }

    /** Takes any extent that may be taken. */
    method TakeExtent(c: nat) returns (made: bool, evicted: seq<BlockKey>, ghost wiped: set<Place>)
      requires Valid() && c < |pool.classes|
      modifies this`pool, this`owner, this`calls
      ensures Valid() && SameShape(old(pool), pool) && (old(Lru(pool)) ==> Lru(pool))
      ensures Evicts(old(pool), pool, evicted, wiped, Durable())
      ensures !made ==> evicted == [] && wiped == {}
      ensures made ==> pool.classes[c].free.rr != [] && pool.unbound == old(pool).unbound
      ensures made ==> StealsList(old(pool), c, 0, evicted)
      ensures Reliable() ==> (made <==> AnyStealable(old(pool), c, 0))
    {
      var r;
      r, evicted, wiped := StealExtentFor(c, 0);
      made := r == Done;
    }

    /** Makes a free slot in a class that has none. */
    method MakeRoom(c: nat) returns (made: bool, evicted: seq<BlockKey>, ghost wiped: set<Place>)
      requires Valid() && c < |pool.classes| && |pool.classes[c].free.rr| < STRIPE_WAYS
      modifies this`pool, this`owner, this`calls
      ensures Valid() && SameShape(old(pool), pool) && (old(Lru(pool)) ==> Lru(pool))
      ensures Evicts(old(pool), pool, evicted, wiped, Durable())
      ensures !made ==> evicted == [] && wiped == {}
      ensures made ==> pool.classes[c].free.rr != [] && pool.unbound == old(pool).unbound
      ensures Reliable() ==> (made <==> !NoVictim(old(pool), c))
      ensures Reliable() && made ==> RoomVictims(old(pool), c, old(ColdLimit()), evicted)
    {
      ghost var p, limit := pool, ColdLimit();
      if NoVictim(p, c) { NoVictimNoGrowth(p, c, limit); }
      var r;
      r, evicted, wiped := GrowRoom(c);
      if r == Unavailable {
        made, evicted, wiped := TakeRoom(c);
      } else {
        made := r == Done;
      }
    }

    /** One round of the search for a free slot in class `c`. */
    method Round(c: nat) returns (r: RoundResult, evicted: seq<BlockKey>, ghost wiped: set<Place>)
      requires Valid() && c < |pool.classes|
      modifies this`pool, this`owner, this`calls
      ensures Valid() && SameShape(old(pool), pool) && (old(Lru(pool)) ==> Lru(pool))
      ensures Evicts(old(pool), pool, evicted, wiped, Durable())
      ensures r != Again ==> evicted == []
      ensures r == Found ==> pool.classes[c].free.rr != []
      ensures r == Again ==> pool.classes[c].free.rr != [] && pool.unbound == 0
      ensures old(pool).classes[c].free.rr != [] && old(pool).unbound == 0 ==>
        r == Found && wiped == {} && pool == old(pool)
      ensures Reliable() ==> (r == Failed <==> Stuck(old(pool), c))
      ensures Reliable() && r != Failed ==> PutVictims(old(pool), c, old(ColdLimit()), evicted)
    {
      ghost var p := pool;
      var failed;
      failed, wiped := BindStripes(c);
      ghost var q, early := pool, wiped;
      if failed || pool.classes[c].free.rr != [] {
        EvictsLater(p, q, q, early, [], {});
        return if failed then Failed else Found, [], early;
      }
      var made;
      made, evicted, wiped := MakeRoom(c);
      EvictsLater(p, q, pool, early, evicted, wiped);
      wiped := early + wiped;
      r := if made then Again else Failed;
    }

    /** Evictions after positions of extents nobody lives in were wiped. */
    lemma {:induction false} EvictsLater(p: Pool, q: Pool, u: Pool, early: set<Place>, evicted: seq<BlockKey>,
                                         wiped: set<Place>)
      requires Seen(q) == Seen(p) && ClearsOnlyGone(Seen(p), {}, early)
      requires Evicts(q, u, evicted, wiped, Durable()) || (u == q && evicted == [] && wiped == {})
      ensures Evicts(p, u, evicted, early + wiped, Durable()) && early + {} == early
    {
      if u == q && evicted == [] && wiped == {} { EvictsNone(q, q, Durable()); }
      EvictsAfter(p, q, u, early, evicted, wiped, Durable());
    }

    /** The search for a slot of class `c` that started on `p` after some rounds: a second one
        starts with the slot made in the first and no extent left to bind. */
    ghost predicate Searched(p: Pool, c: nat, limit: nat, r: RoundResult, evicted: seq<BlockKey>, wiped: set<Place>,
                             rounds: nat)
      reads this
    {
      && c < |p.classes| && SameShape(p, pool) && (Lru(p) ==> Lru(pool)) && rounds <= 2
      && Evicts(p, pool, evicted, wiped, Durable())
      && (rounds == 0 ==> pool == p && r == Again && evicted == [] && wiped == {} && limit == ColdLimit())
      && (rounds > 0 && r == Again ==> rounds == 1 && pool.classes[c].free.rr != [] && pool.unbound == 0)
      && (r == Found ==> pool.classes[c].free.rr != [])
      && (r == Failed ==> evicted == [])
      && (Reliable() && rounds > 0 ==> (r == Failed <==> Stuck(p, c)))
      && (Reliable() && rounds > 0 && r != Failed ==> PutVictims(p, c, limit, evicted))
    }

    method SearchOn(c: nat, ghost p: Pool, ghost limit: nat, evicted: seq<BlockKey>, ghost wiped: set<Place>,
                    ghost rounds: nat)
      returns (r: RoundResult, more: seq<BlockKey>, ghost gone: set<Place>)
      requires Valid() && Searched(p, c, limit, Again, evicted, wiped, rounds)
      modifies this`pool, this`owner, this`calls
      ensures rounds < 2 && Valid() && Searched(p, c, limit, r, more, gone, rounds + 1)
    {
      ghost var w;
      r, more, w := Round(c);
      assert [] + more == more && evicted + [] == evicted && {} + w == w && wiped + {} == wiped;
      more, gone := evicted + more, wiped + w;
    }

    /** Finds a free slot for class `c`, in at most two rounds. A failure has evicted nothing. */
    method FindSlot(c: nat) returns (found: bool, evicted: seq<BlockKey>, ghost wiped: set<Place>, ghost rounds: nat)
      requires Valid() && c < |pool.classes|
      modifies this`pool, this`owner, this`calls
      ensures Valid() && SameShape(old(pool), pool) && (old(Lru(pool)) ==> Lru(pool))
      ensures Evicts(old(pool), pool, evicted, wiped, Durable())
      ensures !found ==> evicted == []
      ensures found ==> pool.classes[c].free.rr != []
      ensures rounds <= 2
      ensures Reliable() ==> (found <==> !Stuck(old(pool), c))
      ensures Reliable() && found ==> PutVictims(old(pool), c, old(ColdLimit()), evicted)
    {
      ghost var p, limit := pool, ColdLimit();
      EvictsNone(p, p, Durable());
      evicted, wiped, rounds := [], {}, 0;
      var r := Again;
      while r == Again
        invariant Valid() && Searched(p, c, limit, r, evicted, wiped, rounds)
        decreases 2 - rounds
      {
        r, evicted, wiped := SearchOn(c, p, limit, evicted, wiped, rounds);
        rounds := rounds + 1;
      }
      found := r == Found;
    }

    /** `ref` is the slot whose turn it is in the free lists `f`, which leaves `g`. */
    predicate InTurn(f: F.FreeLists, g: F.FreeLists, ref: SlotRef) {
      f.rr != [] && ref.extent == f.rr[F.Turn(f)] && F.Of(f, ref.extent) == F.Of(g, ref.extent) + [ref.slot]
    }

    /** `k` is the newest resident of extent `e`, inserted as number `number`. */
    predicate Youngest(p: Pool, q: Pool, e: nat, k: BlockKey, number: nat) {
      && e < |p.extents| && e < |q.extents| && q.extents[e].list == [k] + p.extents[e].list
      && q.extents[e].youngest == Higher(p.extents[e].youngest, number)
    }

    /** What an install of `k` as number `number` brings about. */
    ghost predicate Occupies(p: Pool, q: Pool, c: nat, k: BlockKey, len: nat, number: nat, ref: SlotRef) {
      && c < |p.classes| && c < |q.classes| && ref.size == p.classes[c].size && ref.cls == c
      && q.residents == p.residents[k := Meta(ref, len, p.activity, 0, false, false, 0, 0)]
      && q.ring == p.ring + [k] && q.classes[c].ring == p.classes[c].ring + [k]
      && InTurn(p.classes[c].free, q.classes[c].free, ref) && Youngest(p, q, ref.extent, k, number)
    }

    /** Installs `k` on the free slot whose turn it is in class `c`, as the last in both orders. */
    method Install(k: BlockKey, c: nat, len: nat) returns (ref: SlotRef)
      requires Valid() && c < |pool.classes| && pool.classes[c].free.rr != [] && k !in pool.residents
      modifies this`pool, this`owner, this`putSeq
      ensures Valid() && (old(Lru(pool)) ==> Lru(pool)) && putSeq == old(putSeq) + 1
      ensures View() == old(View())[k := Resident(ref, 0, false, 0)] && ref.size == old(pool).classes[c].size
      ensures Occupies(old(pool), pool, c, k, len, putSeq, ref)
      ensures Laid(View(), geometry.extentBytes) && Slotted(geometry, Sizes(pool.classes), numExtents, ref)
    {
      ref := Occupy(k, c, len);
      SoundIsLaid(pool, owner);
      ResidentsSlotted(pool, geometry, owner, k);
    }

    lemma {:induction false} Prepared(p: Pool, own: Owner, c: nat, k: BlockKey, len: nat, number: nat)
      requires SlabInvariant.Sound(p, own) && c < |p.classes| && p.classes[c].free.rr != [] && k !in p.residents
      requires F.Of(p.classes[c].free, p.classes[c].free.rr[F.Turn(p.classes[c].free)]) != []
      ensures var m := FreshMeta(p, c, len);
        InPool(p, m.ref) && Occupies(p, Installed(p, k, m, F.Pop(p.classes[c].free), number), c, k, len, number, m.ref)
    {
      FreshInstallable(p, own, c, len, k);
      assert ClassOk(p, c);
      F.PopFacts(p.classes[c].free);
    }

    method Occupy(k: BlockKey, c: nat, len: nat) returns (ref: SlotRef)
      requires Valid() && c < |pool.classes| && pool.classes[c].free.rr != [] && k !in pool.residents
      modifies this`pool, this`owner, this`putSeq
      ensures Valid() && (old(Lru(pool)) ==> Lru(pool)) && putSeq == old(putSeq) + 1
      ensures Occupies(old(pool), pool, c, k, len, putSeq, ref)
    {
      FreshInstallable(pool, owner, c, len, k);
      var m := FreshMeta(pool, c, len);
      var next := putSeq + 1;
      Prepared(pool, owner, c, k, len, next);
      InstallFacts(geometry, pool, owner, k, m, F.Pop(pool.classes[c].free), next);
      WheelKept(timely, pool.residents, pool.residents[k := m], retention);
      owner := owner[PlaceOf(m.ref) := k];
      pool, putSeq := Installed(pool, k, m, F.Pop(pool.classes[c].free), next), next;
      return m.ref;
    }

    /** Some class is large enough for a value of `len` bytes. */
    predicate Storable(len: nat) requires SizeClasses.Sound(geometry) {
      0 < len <= UINT32_MAX && len <= geometry.extentBytes && AlignUp(len, geometry.align) <= MaxSize(geometry)
    }

    /** The slot size for a value of `len` bytes. */
    function SizeFor(len: nat): nat requires SizeClasses.Sound(geometry) {
      Canonical(geometry, AlignUp(len, geometry.align))
    }

    /** The class for a value of `len` bytes, if one is large enough. */
    method ClassFor(len: nat) returns (c: Option<nat>)
      requires Valid()
      ensures c.Some? <==> Storable(len)
      ensures c.Some? ==> c.value < |pool.classes| && len <= pool.classes[c.value].size == SizeFor(len)
    {
      if len == 0 || len > pool.extentBytes || len > UINT32_MAX { return None; }
      var aligned := AlignUp(len, geometry.align);
      AlignUpHolds(len, geometry.align);
      MaxAligned(geometry);
      if aligned > pool.extentBytes { return None; }
      var i := ClassForLen(geometry, Sizes(pool.classes), aligned);
      AlignedGap(0, aligned, geometry.align);
      return if i < |pool.classes| then Some(i) else None;
    }

    /** The class of this slot size is stuck. */
    ghost predicate NoRoom(p: Pool, size: nat) {
      exists c: nat :: c < |p.classes| && p.classes[c].size == size && Stuck(p, c)
    }

    /** A slot size has one class. */
    lemma StuckClass(p: Pool, c: nat)
      requires SizeClasses.Sound(geometry) && Shaped(geometry, p.classes) && c < |p.classes|
      ensures NoRoom(p, p.classes[c].size) <==> Stuck(p, c)
    {
      var size := p.classes[c].size;
      forall d: nat | d < |p.classes| && p.classes[d].size == size ensures d == c {
        OneIndex(geometry, Sizes(p.classes), c, size);
        OneIndex(geometry, Sizes(p.classes), d, size);
      }
    }

    /** Places a value under a key that is not resident. */
    method PutNew(k: BlockKey, len: nat) returns (r: Option<SlotRef>, evicted: seq<BlockKey>, ghost wiped: set<Place>)
      requires Valid() && k !in pool.residents
      modifies this`pool, this`owner, this`calls, this`putSeq
      ensures Valid() && (old(Lru(pool)) ==> Lru(pool))
      ensures r.Some? ==>
        Step(old(View()), Inserted(k, r.value, Elems(evicted)), View()) && len <= r.value.size == SizeFor(len)
      ensures r.None? ==> evicted == [] && View() == old(View())
      ensures r.Some? ==>
        Laid(View(), geometry.extentBytes) && Slotted(geometry, Sizes(pool.classes), numExtents, r.value)
      ensures !Storable(len) ==> r.None?
      ensures Reliable() && Storable(len) ==> (r.None? <==> NoRoom(old(pool), SizeFor(len)))
      ensures Durable() ==> ClearsOnlyGone(old(View()), Elems(evicted), wiped)
      ensures Reliable() && r.Some? ==> PutVictims(old(pool), r.value.cls, old(ColdLimit()), evicted)
    {
      ghost var p := pool;
      EvictsNone(p, p, Durable());
      var c := ClassFor(len);
      if c.None? { return None, [], {}; }
      StuckClass(p, c.value);
      var found;
      ghost var rounds;
      found, evicted, wiped, rounds := FindSlot(c.value);
      ghost var q := pool;
      assert Seen(q) == Seen(p) - Elems(evicted);
      if !found {
        assert Elems([]) == {} && Seen(p) - {} == Seen(p);
        return None, evicted, wiped;
      }
      assert k !in Seen(q);
      var ref := Install(k, c.value, len);
      return Some(ref), evicted, wiped;
    }

    /** The operation counter moves on; what can be evicted does not depend on it. */
    method Tick()
      requires Valid()
      modifies this`pool
      ensures Valid() && pool == Ticked(old(pool)) && View() == old(View()) && (old(Lru(pool)) ==> Lru(pool))
      ensures ColdLimit() == old(ColdLimit())
    {
      TickFacts(pool, owner);
      ShapeKept(geometry, pool, Ticked(pool));
      pool := Ticked(pool);
    }

    lemma {:induction false} NoRoomTicked(p: Pool, size: nat)
      ensures NoRoom(p, size) <==> NoRoom(Ticked(p), size)
    {
      forall c: nat ensures Stuck(p, c) <==> Stuck(Ticked(p), c) {
        forall e: nat | e < |p.extents| ensures Stealable(p, c, 0, e) <==> Stealable(Ticked(p), c, 0, e) { }
      }
    }

    /** Places a value of `len` bytes under `k`, evicting if it must. A key that is already
        resident keeps its slot. A failure has evicted nothing. */
    method Put(k: BlockKey, len: nat) returns (r: Option<SlotRef>, evicted: seq<BlockKey>, ghost wiped: set<Place>)
      requires Valid()
      modifies this`pool, this`owner, this`calls, this`putSeq
      ensures Valid() && (old(Lru(pool)) ==> Lru(pool))
      ensures k in old(View()) ==>
        View() == old(View()) && r == if old(View())[k].pending then None else Some(old(View())[k].ref)
      ensures k in old(View()) && r.Some? ==>
        pool.residents == old(pool).residents[k := old(pool).residents[k].(referenced := true)]
      ensures k !in old(View()) && r.Some? ==>
        Step(old(View()), Inserted(k, r.value, Elems(evicted)), View()) && len <= r.value.size == SizeFor(len)
      ensures k !in old(View()) && r.Some? ==> Laid(View(), geometry.extentBytes) && Storable(len)
      ensures k !in old(View()) && r.Some? ==> Slotted(geometry, Sizes(pool.classes), numExtents, r.value)
      ensures k !in old(View()) && Reliable() ==> (r.None? <==> !Storable(len) || NoRoom(old(pool), SizeFor(len)))
      ensures r.None? || k in old(View()) ==> evicted == [] && View() == old(View())
      ensures Durable() ==> ClearsOnlyGone(old(View()), Elems(evicted), wiped)
      ensures k !in old(View()) && Reliable() && r.Some? ==>
        PutVictims(Ticked(old(pool)), r.value.cls, old(ColdLimit()), evicted)
    {
      if Storable(len) { NoRoomTicked(pool, SizeFor(len)); }
      EvictsNone(pool, pool, Durable());
      Tick();
      if k !in pool.residents {
        r, evicted, wiped := PutNew(k, len);
      } else {
        r := PutAgain(k);
        evicted, wiped := [], {};
      }
    }

    /** A key that is resident keeps its slot and counts as used. */
    method PutAgain(k: BlockKey) returns (r: Option<SlotRef>)
      requires Valid() && k in pool.residents
      modifies this`pool
      ensures Valid() && View() == old(View()) && (old(Lru(pool)) ==> Lru(pool))
      ensures r == if old(View())[k].pending then None else Some(old(View())[k].ref)
      ensures pool.residents == if old(View())[k].pending then old(pool).residents
        else old(pool).residents[k := old(pool).residents[k].(referenced := true)]
      ensures forall c ::
        0 <= c < |old(pool).classes| ==> c < |pool.classes| && pool.classes[c].ring == old(pool).classes[c].ring
    {
      var m := pool.residents[k];
      if m.pending { return None; }
      SetMeta(k, m.(referenced := true));
      return Some(m.ref);
    }

    // ---------------------------------------------------------- background eviction

    /** No resident of class `c` may be evicted. */
    ghost predicate NoneEvictable(v: Lifecycle.View, c: nat) {
      forall k :: k in v && v[k].ref.cls == c ==> !Evictable(v[k])
    }

    lemma {:induction false} NoCandidateLeft(p: Pool, own: Owner, c: nat)
      requires SlabInvariant.Sound(p, own) && c < |p.classes| && NoCandidate(p.classes[c].ring, p.residents)
      ensures NoneEvictable(Seen(p), c)
    {
      forall k | k in Seen(p) && Seen(p)[k].ref.cls == c ensures !Evictable(Seen(p)[k]) {
        assert MemberOk(p, c, k);
        assert k in p.classes[c].ring && !Victimizable(p.residents, k);
      }
    }

    /** Evicts from class `c` until it has `target` free slots, at most `most` residents, and
        only while no unbound extent could be used instead. It stops early only when nothing
        evictable is left, or when an extent was given back. */
    method ReclaimClass(c: nat, target: nat, most: nat) returns (evicted: seq<BlockKey>, ghost wiped: set<Place>)
      requires Valid()
      modifies this`pool, this`owner, this`calls
      ensures Valid() && (old(Lru(pool)) ==> Lru(pool))
      ensures Evicts(old(pool), pool, evicted, wiped, Durable()) && |evicted| <= most
      ensures old(pool).unbound > 0 || c >= |old(pool).classes| || old(pool).classes[c].free.count >= target
        ==> evicted == []
      ensures evicted != [] ==> c < |pool.classes| && pool.classes[c].free.count <= target
      ensures c < |old(pool).classes| && (!callbacks.onSlot || Reliable()) ==>
        && c < |pool.classes|
        && (|| |evicted| == most || pool.classes[c].free.count >= target || pool.unbound > 0
            || NoneEvictable(View(), c))
    {
      ghost var p := pool;
      EvictsNone(p, p, Durable());
      evicted, wiped := [], {};
      if c >= |pool.classes| { return; }
      while |evicted| < most && pool.classes[c].free.count < target
        invariant Valid() && c < |pool.classes| && (Lru(p) ==> Lru(pool))
        invariant Evicts(p, pool, evicted, wiped, Durable()) && |evicted| <= most
        invariant evicted == [] ==> pool == p
        invariant evicted != [] ==>
          p.unbound <= 0 && p.classes[c].free.count < target && pool.classes[c].free.count <= target
        decreases most - |evicted|
      {
        if pool.unbound > 0 { break; }
        var stop;
        evicted, stop, wiped := ReclaimOne(c, p, evicted, wiped);
        if stop { break; }
      }
    }

    /** One round of the reclaim: one more resident goes, and it stops when none can, or when
        that gave an extent back. */
    method ReclaimOne(c: nat, ghost p: Pool, evicted: seq<BlockKey>, ghost wiped: set<Place>)
      returns (more: seq<BlockKey>, stop: bool, ghost gone: set<Place>)
      requires Valid() && c < |pool.classes| && Evicts(p, pool, evicted, wiped, Durable()) && pool.unbound == 0
      modifies this`pool, this`owner, this`calls
      ensures Valid() && SameShape(old(pool), pool) && (old(Lru(pool)) ==> Lru(pool))
      ensures Evicts(p, pool, more, gone, Durable()) && |more| <= |evicted| + 1 && evicted <= more
      ensures c < |pool.classes| && pool.classes[c].free.count <= old(pool).classes[c].free.count + |more| - |evicted|
      ensures !stop ==> |more| == |evicted| + 1
      ensures stop && (!callbacks.onSlot || Reliable()) ==> pool.unbound > 0 || NoneEvictable(View(), c)
    {
      ghost var q, own := pool, owner;
      var before := pool.classes[c].free.count;
      var ok, one;
      ghost var w, at;
      ok, one, w, at := EvictOne(c);
      EvictsMore(p, q, pool, evicted, wiped, one, w, Durable());
      more, gone := evicted + one, wiped + w;
      stop := !ok || pool.classes[c].free.count <= before;
      if !ok && (!callbacks.onSlot || Reliable()) { StopsEmpty(q, own, pool, c, w); }
    }

    lemma {:induction false} StopsEmpty(p: Pool, own: Owner, q: Pool, c: nat, w: set<Place>)
      requires SlabInvariant.Sound(p, own) && c < |p.classes| && NoCandidate(p.classes[c].ring, p.residents)
      requires Evicts(p, q, [], w, Durable())
      ensures NoneEvictable(Seen(q), c)
    {
      NoCandidateLeft(p, own, c);
      assert Elems([]) == {} && Seen(p) - {} == Seen(p);
    }

    /** Every single eviction can be made durable: a reliable callback for one slot is there, or
        no callback is needed. */
    ghost predicate Unstoppable() {
      if callbacks.onSlot then Reliable() else !callbacks.onExtent
    }

    /** Makes the eviction of `k` durable in the cheapest way the callbacks allow, then evicts
        it. Without a way to invalidate a single record, an extent with other residents cannot
        be touched. */
    method EvictGlobal(k: BlockKey) returns (ok: bool, ghost wiped: set<Place>)
      requires Valid() && k in pool.residents && Free(pool.residents[k])
      modifies this`pool, this`owner, this`calls
      ensures Valid() && (old(Lru(pool)) ==> Lru(pool))
      ensures !ok ==> wiped == {} && pool == old(pool) && !Unstoppable()
      ensures ok ==> pool.residents == old(pool).residents - {k} && pool.ring == Without(old(pool).ring, k)
      ensures ok ==> pool.used == old(pool).used - old(pool).residents[k].ref.size
      ensures ok ==> Evicts(old(pool), pool, [k], wiped, Durable())
    {
      ghost var p, own := pool, owner;
      assert KeyOk(pool, owner, k);
      WipeOne(pool, owner, k);
      var ref := pool.residents[k].ref;
      wiped := {};
      if pool.extents[ref.extent].count == 1 && callbacks.onExtent {
        ok := Ask(ExtentCall(ref.extent));
        if !ok { return; }
        WipeLast(p, own, k);
        wiped := Places(ref.extent, pool.extentBytes);
      } else if callbacks.onSlot {
        ok := Ask(SlotCall(ref));
        if !ok { return; }
        wiped := {PlaceOf(ref)};
      } else if callbacks.onExtent {
        return false, {};
      }
      FreeSlot(k);
      EvictsOne(p, pool, k, wiped, Durable());
      ok := true;
    }

    /** The global hand moves past an element it may not take. */
    method SkipGlobal()
      requires Valid() && pool.ring != []
      modifies this`pool
      ensures Valid() && pool == old(pool).(ring := Rotated(old(pool).ring))
    {
      RotatedFacts(pool.ring);
      RingKeeps(pool, owner, Rotated(pool.ring));
      pool := pool.(ring := Rotated(pool.ring));
    }

    /** One step of the global sweep: evicts the element under the hand, or passes it when it
        is held or protected, or stops when its eviction cannot be made durable. */
    method ColdStep() returns (took: seq<BlockKey>, stop: bool, ghost wiped: set<Place>)
      requires Valid() && pool.ring != []
      modifies this`pool, this`owner, this`calls
      ensures Valid() && Evicts(old(pool), pool, took, wiped, Durable()) && |took| <= 1
      ensures stop ==> took == [] && pool == old(pool) && !Unstoppable()
      ensures !stop && took == [] ==>
        pool == old(pool).(ring := Rotated(old(pool).ring)) && !Victimizable(old(pool).residents, old(pool).ring[0])
      ensures took != [] ==>
        && took == [old(pool).ring[0]] && Victimizable(old(pool).residents, took[0]) && pool.ring == old(pool).ring[1..]
        && pool.residents == old(pool).residents - {took[0]}
          && pool.used == old(pool).used - old(pool).residents[took[0]].ref.size
        && (old(Lru(pool)) ==> Lru(pool))
    {
      ghost var p := pool;
      EvictsNone(p, p, Durable());
      var k := pool.ring[0];
      assert KeyOk(pool, owner, k);
      var m := pool.residents[k];
      if m.refs > 0 || m.until != 0 {
        SkipGlobal();
        return [], false, {};
      }
      FrontOut(pool.ring);
      var ok;
      ok, wiped := EvictGlobal(k);
      if ok { return [k], false, wiped; } else { return [], true, {}; }
    }

    /** Before the last eviction more than `target` bytes were used. */
    ghost predicate LastNeeded(p: Pool, evicted: seq<BlockKey>, target: nat, used: int) {
      evicted != [] ==> var k := evicted[|evicted| - 1]; k in p.residents && target < used + p.residents[k].ref.size
    }

    /** A sweep that has evicted some residents evicts at most one more. */
    lemma ColdMore(p: Pool, q: Pool, r: Pool, evicted: seq<BlockKey>, wiped: set<Place>, took: seq<BlockKey>,
                   w: set<Place>,
                   target: nat, durable: bool)
      requires Evicts(p, q, evicted, wiped, durable) && Evicts(q, r, took, w, durable) && |took| <= 1
      requires LastNeeded(p, evicted, target, q.used)
      requires took == [] ==> r.used == q.used
      requires took != [] ==>
        took[0] in q.residents && r.used == q.used - q.residents[took[0]].ref.size && target < q.used
      ensures Evicts(p, r, evicted + took, wiped + w, durable)
      ensures LastNeeded(p, evicted + took, target, r.used)
      ensures evicted + (took + r.ring) == (evicted + took) + r.ring
    {
      EvictsMore(p, q, r, evicted, wiped, took, w, durable);
      if took == [] {
        assert evicted + took == evicted;
      } else {
        var k := took[0];
        assert k in Seen(q) && Seen(q)[k] == Seen(p)[k];
      }
    }

    /** A sweep in progress: it began in `p` and is now, after `steps` steps, in `q`. */
    ghost predicate Sweeps(p: Pool, q: Pool, evicted: seq<BlockKey>, wiped: set<Place>, target: nat, steps: nat) {
      && Evicts(p, q, evicted, wiped, Durable()) && LastNeeded(p, evicted, target, q.used)
      && q.residents == p.residents - Elems(evicted)
      && Swept(p.ring, p.residents, q.ring, evicted, steps)
    }

    /** One step of the sweep: what it took is what the order says. */
    lemma SweepsOn(p: Pool, q: Pool, r: Pool, evicted: seq<BlockKey>, wiped: set<Place>, took: seq<BlockKey>,
                   w: set<Place>,
                   target: nat, steps: nat)
      requires Sweeps(p, q, evicted, wiped, target, steps) && Evicts(q, r, took, w, Durable()) && q.ring != []
      requires q.ring[0] in q.residents && target < q.used
      requires took == [] ==> r == q.(ring := Rotated(q.ring)) && !Victimizable(q.residents, q.ring[0])
      requires took != [] ==>
        && took == [q.ring[0]] && Victimizable(q.residents, took[0]) && r.ring == q.ring[1..]
        && r.residents == q.residents - {took[0]} && r.used == q.used - q.residents[took[0]].ref.size
      ensures Sweeps(p, r, evicted + took, wiped + w, target, steps + 1)
    {
      ColdMore(p, q, r, evicted, wiped, took, w, target, Durable());
      SweptNext(p.ring, p.residents, q.ring, evicted, steps);
      if took == [] {
        assert evicted + took == evicted;
      } else {
        assert Elems(evicted + took) == Elems(evicted) + {took[0]};
      }
    }

    /** One more step of a sweep that began in `p` and has evicted some residents. */
    method ColdRound(ghost p: Pool, evicted: seq<BlockKey>, ghost wiped: set<Place>, target: nat, ghost steps: nat)
      returns (all: seq<BlockKey>, stop: bool, ghost gone: set<Place>)
      requires Valid() && pool.ring != [] && target < pool.used && Sweeps(p, pool, evicted, wiped, target, steps)
      modifies this`pool, this`owner, this`calls
      ensures Valid() && Sweeps(p, pool, all, gone, target, if stop then steps else steps + 1)
      ensures |evicted| <= |all| <= |evicted| + 1 && (stop ==> !Unstoppable())
      ensures NothingHeld(p) ==> (old(Lru(pool)) ==> Lru(pool))
    {
      ghost var q := pool;
      assert KeyOk(pool, owner, pool.ring[0]);
      var took;
      ghost var w;
      took, stop, w := ColdStep();
      if stop { return evicted, true, wiped; }
      SweepsOn(p, q, pool, evicted, wiped, took, w, target, steps);
      return evicted + took, false, wiped + w;
    }

    /** The loop of the global sweep. */
    method SweepGlobal(target: nat, most: nat)
      returns (evicted: seq<BlockKey>, ghost wiped: set<Place>, ghost steps: nat)
      requires Valid()
      modifies this`pool, this`owner, this`calls
      ensures Valid() && Sweeps(old(pool), pool, evicted, wiped, target, steps) && |evicted| <= most
      ensures Unstoppable() ==> pool.used <= target || |evicted| == most || pool.ring == [] || steps == 4 * most
      ensures NothingHeld(old(pool)) ==> (old(Lru(pool)) ==> Lru(pool))
    {
      ghost var p := pool;
      EvictsNone(p, p, Durable());
      SweptStarts(p.ring, p.residents);
      evicted, wiped, steps := [], {}, 0;
      assert p.residents - Elems([]) == p.residents;
      var limit := 4 * most;
      for i := 0 to limit
        invariant Valid() && Sweeps(p, pool, evicted, wiped, target, steps) && |evicted| <= most && steps == i
        invariant NothingHeld(p) ==> (Lru(p) ==> Lru(pool))
      {
        if |evicted| == most || pool.used <= target || pool.ring == [] { return; }
        var stop;
        evicted, stop, wiped := ColdRound(p, evicted, wiped, target, steps);
        if stop { return; }
        steps := steps + 1;
      }
    }

    /** Evicts in global order until at most `target` bytes are used, at most `most` residents
        and four times as many steps. It takes what may be evicted in that order: with nothing
        held exactly its front, the least recently accessed residents, oldest first. */
    method EvictColdToTarget(target: nat, most: nat) returns (evicted: seq<BlockKey>, ghost wiped: set<Place>)
      requires Valid()
      modifies this`pool, this`owner, this`calls
      ensures Valid() && Evicts(old(pool), pool, evicted, wiped, Durable()) && |evicted| <= most
      ensures evicted <= Takes(old(pool).ring, old(pool).residents)
      ensures NothingHeld(old(pool)) ==> evicted + pool.ring == old(pool).ring && (old(Lru(pool)) ==> Lru(pool))
      ensures Unstoppable() ==>
        || pool.used <= target || |evicted| == most || evicted == Takes(old(pool).ring, old(pool).residents)
        || |Skips(old(pool).ring, old(pool).residents)| > 3 * most
      ensures LastNeeded(old(pool), evicted, target, pool.used)
    {
      ghost var p := pool;
      forall k | k in p.ring && NothingHeld(p) ensures Victimizable(p.residents, k) { assert KeyOk(p, owner, k); }
      ghost var steps;
      evicted, wiped, steps := SweepGlobal(target, most);
      SweptPrefix(p.ring, p.residents, pool.ring, evicted, steps);
    }

    // ---------------------------------------------------------- restoring

    /** Binds the extent of an entry if it is the first of its extent. */
    method RestoreExtent(en: RestoreEntry, c: nat)
      requires Valid() && Restorable(pool, geometry, en) && c < |pool.classes| && pool.classes[c].size == en.size
      requires pool.extents[en.extent].cls.Some? ==> pool.extents[en.extent].cls == Some(c)
      modifies this`pool, this`calls
      ensures Valid() && SameShape(old(pool), pool) && pool.residents == old(pool).residents
        && pool.ring == old(pool).ring
      ensures pool.extents[en.extent].cls == Some(c) && Restorable(pool, geometry, en) && calls == old(calls)
      ensures forall x ::
        Restorable(old(pool), geometry, x) && (x == en || Compatible(en, x)) ==> Restorable(pool, geometry, x)
    {
      if pool.extents[en.extent].cls.None? {
        ghost var p := pool;
        var r;
        ghost var w;
        r, w := BindExtent(c, en.extent, true);
        ghost var free :| Carved(p, c, en.extent, free) && pool == BoundTo(p, c, en.extent, free);
        forall x | Restorable(p, geometry, x) && (x == en || Compatible(en, x)) ensures Restorable(pool, geometry, x) {
          BindKeepsFit(p, geometry, c, en.extent, free, x);
        }
      }
    }

    /** Installs one entry whose extent is bound to its class. */
    method RestoreSlot(en: RestoreEntry, c: nat)
      requires Valid() && Restorable(pool, geometry, en)
      requires c < |pool.classes| && pool.classes[c].size == en.size && pool.extents[en.extent].cls == Some(c)
      modifies this`pool, this`owner, this`retention
      ensures Valid() && SameShape(old(pool), pool) && retention == old(retention).(wheel := retention.wheel)
      ensures pool.residents == old(pool).residents[en.key := RestoredMeta(old(retention), c, en)]
      ensures pool.ring == old(pool).ring + [en.key]
      ensures forall x :: Restorable(old(pool), geometry, x) && Compatible(en, x) ==> Restorable(pool, geometry, x)
    {
      ghost var p := pool;
      RestoreInstallable(pool, geometry, owner, retention, c, en);
      var m := RestoredMeta(retention, c, en);
      var free := F.Take(pool.classes[c].free, en.extent, en.slot);
      InstallFacts(geometry, pool, owner, en.key, m, free, 0);
      RestoredTimed(timely, pool.residents, retention, c, en);
      forall x | Restorable(p, geometry, x) && Compatible(en, x)
        ensures Restorable(Installed(p, en.key, m, free, 0), geometry, x) {
        InstallKeepsFit(p, geometry, owner, en.key, m, free, x);
      }
      if m.until != 0 { retention := PushWheel(retention, en.key, m.until); }
      owner := owner[PlaceOf(m.ref) := en.key];
      pool := Installed(pool, en.key, m, free, 0);
    }

    /** Installs one entry that is known to fit; nothing can fail. */
    method RestoreOne(en: RestoreEntry)
      requires Valid() && Restorable(pool, geometry, en)
      modifies this`pool, this`owner, this`calls, this`retention
      ensures Valid() && SameShape(old(pool), pool) && calls == old(calls)
        && retention == old(retention).(wheel := retention.wheel)
      ensures en.size in Sizes(old(pool).classes)
      ensures pool.residents == old(pool).residents[en.key := RestoredMeta(old(retention),
          Index(Sizes(old(pool).classes), en.size), en)]
      ensures pool.ring == old(pool).ring + [en.key]
      ensures forall x :: Restorable(old(pool), geometry, x) && Compatible(en, x) ==> Restorable(pool, geometry, x)
    {
      var c := ClassForExactSize(Sizes(pool.classes), en.size);
      assert Sizes(pool.classes)[..|pool.classes|] == Sizes(pool.classes);
      OneIndex(geometry, Sizes(pool.classes), c, en.size);
      RestoredClass(pool, geometry, owner, c, en);
      RestoreExtent(en, c);
      RestoreSlot(en, c);
    }

    /** Installs a whole batch or nothing: what passes validation cannot fail. */
    method Restore(entries: seq<RestoreEntry>) returns (ok: bool)
      requires Valid()
      modifies this`pool, this`owner, this`calls, this`retention
      ensures Valid() && calls == old(calls)
      ensures ok <==> Acceptable(old(pool), geometry, entries)
      ensures !ok ==> pool == old(pool) && owner == old(owner) && retention == old(retention)
      ensures ok ==> pool.residents == WithRestored(old(pool).residents, old(retention), Sizes(old(pool).classes),
                                                    entries)
      ensures ok && old(pool).residents == map[] ==> Lru(pool)
    {
      ok := Validate(pool, geometry, entries);
      if ok { InstallAll(entries); }
    }

    method InstallAll(entries: seq<RestoreEntry>)
      requires Valid() && Acceptable(pool, geometry, entries)
      modifies this`pool, this`owner, this`calls, this`retention
      ensures Valid() && calls == old(calls)
      ensures forall j :: 0 <= j < |entries| ==> entries[j].size in Sizes(old(pool).classes)
      ensures pool.residents == WithRestored(old(pool).residents, old(retention), Sizes(old(pool).classes), entries)
      ensures old(pool).residents == map[] ==> Lru(pool)
    {
      ghost var p, r := pool, retention;
      for i := 0 to |entries|
        invariant Valid() && calls == old(calls) && retention == r.(wheel := retention.wheel)
        invariant InstalledSoFar(p, pool, r, entries, i) && RestFits(pool, geometry, entries, i)
      {
        ghost var q, s := pool, retention;
        RestoreOne(entries[i]);
        InstallsOneMore(p, q, pool, geometry, r, s, entries, i);
      }
      assert entries[..|entries|] == entries;
      if p.residents == map[] { NeverReadLru(pool); }
    }

    // ---------------------------------------------------------- retention

    /** Configures retention. The wheel is in order afterwards exactly when nothing was protected
        before and, for an enabled wheel, the clock had reached its ninth second. */
    method ConfigureRetention(enabled: bool, budget: nat, classPct: nat, maxTtl: nat, now: nat)
      requires Valid() && now <= UINT32_MAX
      modifies this`retention, this`timely
      ensures Valid() && retention == ConfiguredWheel(enabled, budget, classPct, maxTtl, now)
      ensures timely <==> NothingProtected(pool.residents) && (retention.enabled ==> now >= TICK - 1)
    {
      var on := enabled && maxTtl != 0;
      var wheel := if on then seq(maxTtl / TICK + 2, i => []) else [];
      retention := Retention(on, budget, if classPct > 100 then 100 else classPct, maxTtl, now, Target(now), wheel);
      assert retention == ConfiguredWheel(enabled, budget, classPct, maxTtl, now);
      ConfiguredIsOrdered(pool.residents, enabled, budget, classPct, maxTtl, now);
      timely := WheelOk(pool.residents, retention);
    }

    /** The clock only moves forward. */
    method SetClock(now: nat)
      requires Valid() && now <= UINT32_MAX
      modifies this`retention
      ensures Valid() && retention == old(retention).(now := retention.now)
      ensures retention.now == if now > old(retention).now then now else old(retention).now
    {
      if now > retention.now {
        if timely { WheelLater(pool.residents, retention, now); }
        retention := retention.(now := now);
      }
    }

    /** New deadline and lifetime for `k`, with a wheel entry if the deadline moved. */
    method SetDeadline(k: BlockKey, until: nat, ttl: nat)
      requires Valid() && retention.enabled && k in pool.residents
      requires pool.residents[k].until <= until
      requires retention.now < until || (retention.now == UINT32_MAX && retention.now <= until)
      modifies this`pool, this`retention
      ensures Valid() && View() == old(View())[k := old(View())[k].(until := until)] && (old(Lru(pool)) ==> Lru(pool))
      ensures InPool(old(pool), old(pool).residents[k].ref)
        && pool == Revised(old(pool), k, old(pool).residents[k].(until := until, ttl := ttl))
      ensures retention ==
        if until != old(pool).residents[k].until then PushWheel(old(retention), k, until) else old(retention)
    {
      var m := pool.residents[k];
      var n := m.(until := until, ttl := ttl);
      assert KeyOk(pool, owner, k);
      ReviseFacts(geometry, pool, owner, k, n);
      WheelMoved(timely, pool.residents, retention, k, n);
      if until != m.until { retention := PushWheel(retention, k, until); }
      pool := Revised(pool, k, n);
    }

    /** The lifetime a request for `m` asks for. */
    function LifetimeFor(m: Meta, ttl: nat, refresh: bool): nat
      reads this`retention
    {
      Lifetime(retention.maxTtl, m.ttl, ttl, refresh)
    }

    /** Neither the byte budget nor the share of its class has room for protecting `k`. */
    predicate OverBudget(k: BlockKey)
      reads this
    {
      && k in pool.residents && pool.residents[k].ref.cls < |pool.classes|
      && var m, cls := pool.residents[k], pool.classes[pool.residents[k].ref.cls];
         || pool.protectedBytes + m.ref.size > retention.budget
         || cls.protected + 1 > ProtectCap(cls.bound, cls.perExtent, retention.classPct)
    }

    predicate Granted(code: RetainCode) {
      code == ProtectedNew || code == Extended || code == Upgraded || code == Unchanged
    }

    /** How a granted request is reported: new, raised, moved on, or neither. */
    predicate Reported(code: RetainCode, was: nat, until: nat, stored: nat, life: nat) {
      && (code == ProtectedNew <==> was == 0)
      && (code == Upgraded <==> was != 0 && life > stored)
      && (code == Extended <==> was != 0 && life <= stored && until > was)
      && (code == Unchanged <==> was != 0 && life <= stored && until <= was)
    }

    /** Grants or extends the lifetime of a visible key, within the byte budget and the cap of
        its class. A deadline never gets earlier, and the lifetime is kept for later refreshes. */
    method Grant(k: BlockKey, ttl: nat, refresh: bool) returns (code: RetainCode)
      requires Valid() && retention.enabled && k in pool.residents
      modifies this`pool, this`retention
      ensures Valid() && (old(Lru(pool)) ==> Lru(pool)) && retention == old(retention).(wheel := retention.wheel)
      ensures code != Miss
      ensures code == HitUnprotected <==> old(LifetimeFor(pool.residents[k], ttl, refresh)) == 0
      ensures old(pool).residents[k].ref.cls < |old(pool).classes|
      ensures code == Denied <==>
        code != HitUnprotected && old(pool).residents[k].until == 0 && old(OverBudget(k))
      ensures code == HitUnprotected || code == Denied ==> pool == old(pool)
      ensures InPool(old(pool), old(pool).residents[k].ref)
      ensures Granted(code) ==>
        var m, life := old(pool).residents[k], old(LifetimeFor(pool.residents[k], ttl, refresh));
        var until := Deadline(retention.now, life, m.until);
        && pool == Revised(old(pool), k, m.(until := until, ttl := life))
        && View() == old(View())[k := old(View())[k].(until := until)]
        && Reported(code, m.until, until, Lower(m.ttl, retention.maxTtl), life)
      ensures if code == ProtectedNew then pool.protectedBytes <= retention.budget
              else pool.protectedBytes == old(pool).protectedBytes
    {
      var m := pool.residents[k];
      var stored := Lower(m.ttl, retention.maxTtl);
      var eff := LifetimeFor(m, ttl, refresh);
      assert KeyOk(pool, owner, k);
      if eff == 0 { return HitUnprotected; }
      var isNew := m.until == 0;
      if isNew && OverBudget(k) { return Denied; }
      var until := Deadline(retention.now, eff, m.until);
      code := if isNew then ProtectedNew
              else if eff > stored then Upgraded
              else if until > m.until then Extended
              else Unchanged;
      SetDeadline(k, until, eff);
    }

    /** The new deadline of a grant at `now`, and the lifetime that later refreshes renew: a refresh
        takes the stored lifetime, a set the longer one, both within the cap; the deadline lies
        that far ahead, short of the end of the clock, and never before the old one. */
    ghost predicate Renewed(p: Pool, q: Pool, k: BlockKey, ttl: nat, refresh: bool, now: nat, most: nat,
                            code: RetainCode) {
      && k in p.residents && k in q.residents
      && var m, n := p.residents[k], q.residents[k];
         var life := if refresh then Lower(m.ttl, most) else Higher(Lower(m.ttl, most), Lower(ttl, most));
         && n.until == Higher(m.until, Lower(now + life, UINT32_MAX))
         && n.ttl == life > 0
         && Reported(code, m.until, n.until, Lower(m.ttl, most), life)
    }

    /** Retention request: the clock moves on, a refresh counts as a read, then the grant. */
    method Retain(k: BlockKey, ttl: nat, refresh: bool, now: nat) returns (code: RetainCode)
      requires Valid() && now <= UINT32_MAX
      modifies this`pool, this`retention
      ensures Valid() && (old(Lru(pool)) ==> Lru(pool))
      ensures code == Miss <==> !Visible(old(View()), k)
      ensures code == Miss || code == HitUnprotected || code == Denied ==> View() == old(View())
      ensures code == HitUnprotected <==>
        Visible(old(View()), k) && (retention.enabled ==> LifetimeFor(old(pool).residents[k], ttl, refresh) == 0)
      ensures code == Denied <==>
        && Visible(old(View()), k) && retention.enabled && code != HitUnprotected
        && old(pool).residents[k].until == 0 && old(OverBudget(k))
      ensures Granted(code) ==> Renewed(old(pool), pool, k, ttl, refresh, retention.now, retention.maxTtl, code)
      ensures Granted(code) ==>
        k in View() && retention.now <= View()[k].until && Step(old(View()), Retained(k, View()[k].until), View())
      ensures code != Miss && retention.enabled ==> ReadIf(old(pool), pool, k, refresh)
      ensures retention.now == if now > old(retention).now then now else old(retention).now
      ensures retention.maxTtl == old(retention).maxTtl && retention.enabled == old(retention).enabled
      ensures pool.protectedBytes <= old(pool).protectedBytes || pool.protectedBytes <= retention.budget
    {
      SetClock(now);
      assert OverBudget(k) == old(OverBudget(k));
      code := RetainNow(k, ttl, refresh);
    }

    method RetainNow(k: BlockKey, ttl: nat, refresh: bool) returns (code: RetainCode)
      requires Valid()
      modifies this`pool, this`retention
      ensures Valid() && (old(Lru(pool)) ==> Lru(pool)) && retention == old(retention).(wheel := retention.wheel)
      ensures code == Miss <==> !Visible(old(View()), k)
      ensures code == Miss || code == HitUnprotected || code == Denied ==> View() == old(View())
      ensures code == HitUnprotected <==>
        Visible(old(View()), k) && (retention.enabled ==> LifetimeFor(old(pool).residents[k], ttl, refresh) == 0)
      ensures code == Denied <==>
        && Visible(old(View()), k) && retention.enabled && code != HitUnprotected
        && old(pool).residents[k].until == 0 && old(OverBudget(k))
      ensures Granted(code) ==> Renewed(old(pool), pool, k, ttl, refresh, retention.now, retention.maxTtl, code)
      ensures Granted(code) ==>
        k in View() && retention.now <= View()[k].until && Step(old(View()), Retained(k, View()[k].until), View())
      ensures code != Miss && retention.enabled ==> ReadIf(old(pool), pool, k, refresh)
      ensures pool.protectedBytes <= old(pool).protectedBytes || pool.protectedBytes <= retention.budget
    {
      if k !in pool.residents || pool.residents[k].pending { return Miss; }
      if !retention.enabled { return HitUnprotected; }
      code := TouchAndGrant(k, ttl, refresh);
    }

    method TouchAndGrant(k: BlockKey, ttl: nat, refresh: bool) returns (code: RetainCode)
      requires Valid() && retention.enabled && k in pool.residents
      modifies this`pool, this`retention
      ensures Valid() && (old(Lru(pool)) ==> Lru(pool)) && retention == old(retention).(wheel := retention.wheel)
      ensures code != Miss
      ensures code == HitUnprotected || code == Denied ==> View() == old(View())
      ensures code == HitUnprotected <==> old(LifetimeFor(pool.residents[k], ttl, refresh)) == 0
      ensures code == Denied <==> code != HitUnprotected && old(pool).residents[k].until == 0 && old(OverBudget(k))
      ensures Granted(code) ==>
        && Renewed(old(pool), pool, k, ttl, refresh, retention.now, retention.maxTtl, code)
        && View() == old(View())[k := old(View())[k].(until := pool.residents[k].until)]
      ensures ReadIf(old(pool), pool, k, refresh)
      ensures pool.protectedBytes <= old(pool).protectedBytes || pool.protectedBytes <= retention.budget
    {
      ghost var p := pool;
      TouchIf(k, refresh);
      ghost var q := pool;
      code := Grant(k, ttl, refresh);
      if Granted(code) { GrantAfterRead(p, q, k, ttl, refresh, retention.now, retention.maxTtl, code); }
    }

    /** A grant after the read keeps what the read did. */
    lemma {:induction false} GrantAfterRead(p: Pool, q: Pool, k: BlockKey, ttl: nat, refresh: bool, now: nat, most: nat,
                                            code: RetainCode)
      requires ReadIf(p, q, k, refresh) && InPool(q, q.residents[k].ref)
      requires q.residents[k] == p.residents[k].(access := q.residents[k].access,
                                                 referenced := q.residents[k].referenced)
      requires var m, life := q.residents[k], Lifetime(most, q.residents[k].ttl, ttl, refresh);
        life > 0 && Reported(code, m.until, Deadline(now, life, m.until), Lower(m.ttl, most), life)
      ensures var life := Lifetime(most, q.residents[k].ttl, ttl, refresh);
        var u := Revised(q, k, q.residents[k].(until := Deadline(now, life, q.residents[k].until), ttl := life));
        && ReadIf(p, u, k, refresh) && Renewed(p, u, k, ttl, refresh, now, most, code)
        && u.residents[k].until == Deadline(now, life, q.residents[k].until)
    {
    }

    /** Ends protections whose ten-second window has passed. Nothing ends early, and what is
        still protected afterwards is overdue by less than ten seconds, however long ago the
        last call was. */
    method ExpireRetention(now: nat) returns (ghost released: set<BlockKey>)
      requires Valid() && now <= UINT32_MAX
      modifies this`pool, this`retention
      ensures Valid() && (old(Lru(pool)) ==> Lru(pool))
      ensures Step(old(View()), Expired(released, retention.now), View())
      ensures retention.now == if now > old(retention).now then now else old(retention).now
      ensures (pool.residents, retention) ==
        AfterExpire(old(pool).residents, old(retention).(now := retention.now))
      ensures timely ==> forall k :: k in View() && View()[k].until != 0 ==> retention.now < View()[k].until + TICK
    {
      SetClock(now);
      ghost var p := pool;
      if timely { ExpireKeeps(pool.residents, retention); }
      if retention.wheel != [] && Target(retention.now) > retention.tick {
        DrainAll();
      } else {
        forall k ensures Released1(p.residents, p.residents, retention.now, k) { }
      }
      released := ReleasedKeys(p, pool);
      ReleasesIsExpired(p, pool, retention.now);
    }

    /** Drains every bucket up to the target tick, or every bucket once if that is less. */
    method DrainAll()
      requires Valid() && retention.wheel != [] && Target(retention.now) > retention.tick
      modifies this`pool, this`retention
      ensures Valid() && (old(Lru(pool)) ==> Lru(pool)) && SameShape(old(pool), pool)
      ensures (pool.residents, retention) == AfterExpire(old(pool).residents, old(retention))
      ensures Releases(old(pool).residents, pool.residents, retention.now)
    {
      var target, n := Target(retention.now), |retention.wheel|;
      var start := if target - retention.tick > n then target - n else retention.tick;
      DrainsReleases(Drain(pool.residents, retention.wheel), retention.now, start, target);
      if timely { ExpireKeeps(pool.residents, retention); }
      var q, wheel := DrainTicks(geometry, pool, owner, retention.wheel, retention.now, start, target);
      pool := q;
      retention := retention.(wheel := wheel, tick := target);
    }
  }

  /** The tables of an empty allocator: every class of the lattice, every extent unbound. */
  method BlankPool(g: Geometry, n: nat) returns (p: Pool, r: Retention)
    requires SizeClasses.Sound(g)
    ensures SlabInvariant.Sound(p, map[]) && Shaped(g, p.classes) && p.extentBytes == g.extentBytes
    ensures Lru(p) && Seen(p) == map[] && |p.extents| == n && p.unbound == n && p.used == 0
    ensures Untouched(p)
    ensures WheelOk(p.residents, r)
  {
    ghost var sizes;
    p, sizes := MakePool(g, n);
    r := Retention(false, 0, 80, 3600, 0, 0, []);
    BlankSound(g, p, map[], sizes);
    BlankCounters(g, p, sizes);
    BlankShaped(g, p, sizes);
    NothingTimed(r);
  }

  method MakePool(g: Geometry, n: nat) returns (p: Pool, ghost sizes: seq<nat>)
    requires SizeClasses.Sound(g)
    ensures Lattice(g, sizes) && IsBlank(g, p, sizes) && |p.extents| == n && Untouched(p)
  {
    var built := BuildClasses(g);
    var classes := seq(|built|, i requires 0 <= i < |built| => BlankClass(g, built[i]));
    p := Pool(g.extentBytes, classes, seq(n, i => BLANK), map[], [], n, 0, 0, 0, 0);
    sizes := built;
  }

  /** An entry that fits a bound extent names the extent's class. */
  lemma {:induction false} RestoredClass(p: Pool, g: Geometry, owner: Owner, c: nat, en: RestoreEntry)
    requires SizeClasses.Sound(g) && Shaped(g, p.classes) && SlabInvariant.Sound(p, owner) && Restorable(p, g, en)
    requires c < |p.classes| && p.classes[c].size == en.size
    ensures p.extents[en.extent].cls.Some? ==> p.extents[en.extent].cls == Some(c)
  {
    if p.extents[en.extent].cls.Some? {
      var d := p.extents[en.extent].cls.value;
      OneIndex(g, Sizes(p.classes), c, en.size);
      OneIndex(g, Sizes(p.classes), d, en.size);
    }
  }

  lemma {:induction false} FrontOut(s: seq<BlockKey>)
    requires s != [] && Distinct(s)
    ensures Without(s, s[0]) == s[1..]
  {
    WithoutAt(s, 0);
    assert s[..0] + s[1..] == s[1..];
  }
}
