/** What a client of the slab allocator may rely on, call by call: which keys are
    resident, where, how often they are pinned, whether a removal is pending and
    until when they are retained. `SlabAllocator` is proved to take only these steps;
    the disk store and the RAM tier are proved correct on top of them. */
module Lifecycle {
  import opened Types

  datatype Resident = Resident(ref: SlotRef, refs: nat, pending: bool, until: nat)

  type View = map<BlockKey, Resident>

  datatype Event =
    | Inserted(key: BlockKey, ref: SlotRef, evicted: set<BlockKey>)
    | Pinned(key: BlockKey)
    | Unpinned(key: BlockKey)
    | Removed(key: BlockKey)
    | Evicted(keys: set<BlockKey>)
    | Retained(key: BlockKey, until: nat)
    | Expired(keys: set<BlockKey>, now: nat)

  /** Capacity eviction may only take residents that nobody holds or protects. */
  predicate Evictable(r: Resident) {
    r.refs == 0 && r.until == 0
  }

  /** The set `keys` may be evicted from `v`. */
  ghost predicate AllEvictable(v: View, keys: set<BlockKey>) {
    forall k | k in keys :: k in v && Evictable(v[k])
  }

  /** `k` is visible: resident and not waiting to be freed. */
  predicate Visible(v: View, k: BlockKey) {
    k in v && !v[k].pending
  }

  function AfterPin(v: View, k: BlockKey): View
    requires k in v
  {
    v[k := v[k].(refs := v[k].refs + 1)]
  }

  /** Dropping the last pin of a resident whose removal is pending frees it. */
  function AfterUnpin(v: View, k: BlockKey): View
    requires k in v && v[k].refs > 0
  {
    if v[k].refs == 1 && v[k].pending then v - {k} else v[k := v[k].(refs := v[k].refs - 1)]
  }

  /** Removing a pinned resident only hides it. */
  function AfterRemove(v: View, k: BlockKey): View
    requires k in v
  {
    if v[k].refs > 0 then v[k := v[k].(pending := true)] else v - {k}
  }

  ghost predicate Step(v: View, e: Event, w: View) {
    match e
    case Inserted(k, ref, evicted) =>
      && k !in v
      && AllEvictable(v, evicted)
      && w == (v - evicted)[k := Resident(ref, 0, false, 0)]
    case Pinned(k) =>
      Visible(v, k) && w == AfterPin(v, k)
    case Unpinned(k) =>
      k in v && v[k].refs > 0 && w == AfterUnpin(v, k)
    case Removed(k) =>
      k in v && w == AfterRemove(v, k)
    case Evicted(keys) =>
      && AllEvictable(v, keys)
      && w == v - keys
    case Retained(k, until) =>
      && Visible(v, k) && v[k].until <= until
      && w == v[k := v[k].(until := until)]
    case Expired(keys, now) =>
      && (forall k | k in keys :: k in v && 0 < v[k].until <= now)
      && w == map k | k in v :: if k in keys then v[k].(until := 0) else v[k]
  }

  predicate InExtent(v: View, extentBytes: nat, k: BlockKey) {
    k in v ==>
      && v[k].ref.size > 0
      && v[k].ref.offset == v[k].ref.slot * v[k].ref.size
      && v[k].ref.offset + v[k].ref.size <= extentBytes
  }

  predicate Apart(v: View, j: BlockKey, k: BlockKey) {
    j in v && k in v && j != k && v[j].ref.extent == v[k].ref.extent ==>
      v[j].ref.size == v[k].ref.size && v[j].ref.slot != v[k].ref.slot
  }

  /** Residents lie inside their extent, extents are carved uniformly, and no two
      residents share a slot. */
  ghost predicate Laid(v: View, extentBytes: nat) {
    && (forall k :: InExtent(v, extentBytes, k))
    && (forall j, k :: Apart(v, j, k))
  }

  predicate Overlap(a: SlotRef, b: SlotRef) {
    a.extent == b.extent && a.offset < b.offset + b.size && b.offset < a.offset + a.size
  }

  lemma SlotsApart(i: nat, j: nat, size: nat)
    requires i < j
    ensures i * size + size <= j * size
  {
    var d: nat := j - i - 1;
    assert j * size == d * size + i * size + size by {
      assert j == d + i + 1;
    }
  }

  /** Two residents never share a byte. */
  lemma ResidentsDisjoint(v: View, extentBytes: nat, j: BlockKey, k: BlockKey)
    requires Laid(v, extentBytes)
    requires j in v && k in v && j != k
    ensures !Overlap(v[j].ref, v[k].ref)
  {
    var a, b := v[j].ref, v[k].ref;
    assert InExtent(v, extentBytes, j) && InExtent(v, extentBytes, k) && Apart(v, j, k);
    if a.extent == b.extent {
      if a.slot < b.slot {
        SlotsApart(a.slot, b.slot, a.size);
      } else {
        SlotsApart(b.slot, a.slot, a.size);
      }
    }
  }

  /** Positions cleared by the allocator's persistence callbacks: every evicted record is
      cleared before its resident is forgotten, and no survivor's record is touched. */
  ghost predicate ClearsOnlyGone(v: View, evicted: set<BlockKey>, cleared: set<Place>) {
    && (forall k | k in evicted && k in v :: PlaceOf(v[k].ref) in cleared)
    && (forall k | k in v && k !in evicted :: PlaceOf(v[k].ref) !in cleared)
  }

  // ------------------------------------------------------------------ runs

  ghost predicate Run(vs: seq<View>, es: seq<Event>) {
    && |vs| == |es| + 1
    && forall i :: 0 <= i < |es| ==> Step(vs[i], es[i], vs[i + 1])
  }

  function PinDelta(e: Event, k: BlockKey): int {
    if e == Pinned(k) then 1 else if e == Unpinned(k) then -1 else 0
  }

  /** Pins taken minus pins given back on `k`. */
  function Balance(es: seq<Event>, k: BlockKey): int {
    if es == [] then 0 else Balance(es[..|es| - 1], k) + PinDelta(es[|es| - 1], k)
  }

  lemma RunPrefix(vs: seq<View>, es: seq<Event>)
    requires Run(vs, es) && es != []
    ensures Run(vs[..|es|], es[..|es| - 1])
    ensures Step(vs[|es| - 1], es[|es| - 1], vs[|es|])
  {
  }

  /** As long as its pins outnumber its unpins, a resident keeps its slot through every
      run of allocator events, whatever is inserted, evicted, retained, expired or
      removed meanwhile; and its pin count is exactly the balance. */
  lemma {:induction false} PinnedStays(vs: seq<View>, es: seq<Event>, k: BlockKey)
    requires Run(vs, es)
    requires k in vs[0]
    requires forall i :: 0 <= i <= |es| ==> vs[0][k].refs + Balance(es[..i], k) > 0
    ensures k in vs[|es|]
    ensures vs[|es|][k].ref == vs[0][k].ref
    ensures vs[|es|][k].refs == vs[0][k].refs + Balance(es, k)
    decreases |es|
  {
    if es != [] {
      var n := |es| - 1;
      RunPrefix(vs, es);
      assert es[..n][..n] == es[..n];
      forall i | 0 <= i <= n
        ensures vs[0][k].refs + Balance(es[..n][..i], k) > 0
      {
        assert es[..n][..i] == es[..i];
      }
      PinnedStays(vs[..|es|], es[..n], k);
      assert es[..|es|] == es;
      assert Balance(es, k) == Balance(es[..n], k) + PinDelta(es[n], k);
    }
  }

  /** While a resident is pinned no other key is placed on its slot. */
  lemma PinnedSlotExclusive(vs: seq<View>, es: seq<Event>, k: BlockKey, other: BlockKey, extentBytes: nat)
    requires Run(vs, es)
    requires forall i :: 0 <= i <= |es| ==> Laid(vs[i], extentBytes)
    requires k in vs[0]
    requires forall i :: 0 <= i <= |es| ==> vs[0][k].refs + Balance(es[..i], k) > 0
    requires other in vs[|es|] && other != k
    ensures !Overlap(vs[|es|][other].ref, vs[0][k].ref)
  {
    PinnedStays(vs, es, k);
    ResidentsDisjoint(vs[|es|], extentBytes, other, k);
  }

  function Unpins(es: seq<Event>, k: BlockKey): nat {
    if es == [] then 0
    else Unpins(es[..|es| - 1], k) + if es[|es| - 1] == Unpinned(k) then 1 else 0
  }

  lemma PendingStep(v: View, e: Event, w: View, k: BlockKey)
    requires Step(v, e, w) && k in v && v[k].pending && v[k].refs > 0
    ensures e == Unpinned(k) && v[k].refs == 1 ==> k !in w
    ensures !(e == Unpinned(k) && v[k].refs == 1) ==>
              && k in w && w[k].pending && w[k].ref == v[k].ref
              && w[k].refs == v[k].refs - (if e == Unpinned(k) then 1 else 0)
  {
  }

  /** The slot of a pinned key whose removal is pending is given back exactly at the
      last unpin, never earlier and never later. */
  lemma {:induction false} PendingFreedAtLastUnpin(vs: seq<View>, es: seq<Event>, k: BlockKey)
    requires Run(vs, es)
    requires k in vs[0] && vs[0][k].pending && vs[0][k].refs > 0
    requires es == [] || Unpins(es[..|es| - 1], k) < vs[0][k].refs
    ensures Unpins(es, k) < vs[0][k].refs ==>
              && k in vs[|es|] && vs[|es|][k].pending
              && vs[|es|][k].ref == vs[0][k].ref
              && vs[|es|][k].refs == vs[0][k].refs - Unpins(es, k)
    ensures Unpins(es, k) == vs[0][k].refs ==> k !in vs[|es|]
    ensures Unpins(es, k) <= vs[0][k].refs
    decreases |es|
  {
    if es != [] {
      var n := |es| - 1;
      RunPrefix(vs, es);
      if n > 0 {
        assert Unpins(es[..n], k) >= Unpins(es[..n][..n - 1], k);
      }
      PendingFreedAtLastUnpin(vs[..|es|], es[..n], k);
      PendingStep(vs[n], es[n], vs[|es|], k);
    }
  }

  /** A removal that found its key pinned hides the key at once: until the slot is freed
      no event can pin, retain or insert it. */
  lemma {:induction false} PendingHidden(vs: seq<View>, es: seq<Event>, k: BlockKey)
    requires Run(vs, es) && es != []
    requires k in vs[0] && vs[0][k].pending && vs[0][k].refs > 0
    requires Unpins(es[..|es| - 1], k) < vs[0][k].refs
    ensures es[|es| - 1] != Pinned(k)
    ensures !(es[|es| - 1].Retained? && es[|es| - 1].key == k)
    ensures !(es[|es| - 1].Inserted? && es[|es| - 1].key == k)
  {
    var n := |es| - 1;
    RunPrefix(vs, es);
    if n > 0 {
      assert Unpins(es[..n], k) >= Unpins(es[..n][..n - 1], k);
    }
    PendingFreedAtLastUnpin(vs[..|es|], es[..n], k);
  }

  /** A retained resident outlives every capacity eviction: unless it is removed by
      name, it stays on its slot until an expiry whose clock has reached its deadline. */
  lemma {:induction false} RetainedStays(vs: seq<View>, es: seq<Event>, k: BlockKey)
    requires Run(vs, es)
    requires k in vs[0] && vs[0][k].until > 0 && !vs[0][k].pending
    requires forall i :: 0 <= i < |es| ==> es[i] != Removed(k)
    requires forall i :: 0 <= i < |es| && es[i].Expired? ==> es[i].now < vs[0][k].until
    ensures k in vs[|es|] && !vs[|es|][k].pending
    ensures vs[|es|][k].ref == vs[0][k].ref
    ensures vs[0][k].until <= vs[|es|][k].until
    decreases |es|
  {
    if es != [] {
      var n := |es| - 1;
      RunPrefix(vs, es);
      forall i | 0 <= i < n
        ensures es[..n][i] != Removed(k)
        ensures es[..n][i].Expired? ==> es[..n][i].now < vs[0][k].until
      {
        assert es[..n][i] == es[i];
      }
      RetainedStays(vs[..|es|], es[..n], k);
    }
  }
}
