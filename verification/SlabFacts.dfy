/** What the invariant means to a client, and what composed changes do. */
module SlabFacts {
  import opened Types
  import opened Lifecycle
  import opened Sums
  import opened SweepOrder
  import opened SlabPool
  import opened SlabInvariant
  import opened SlabKeeps
  import F = FreeLists

  lemma {:induction false} PlacedInside(slot: nat, size: nat, per: nat, extentBytes: nat)
    requires slot < per && per * size <= extentBytes
    ensures slot * size + size <= extentBytes
  {
    SlotsApart(slot, per, size);
  }

  /** Residents lie inside their extents and never share a byte. */
  lemma {:induction false} SoundIsLaid(p: Pool, owner: Owner)
    requires Sound(p, owner)
    ensures Laid(Seen(p), p.extentBytes)
  {
    var v := Seen(p);
    forall k ensures InExtent(v, p.extentBytes, k) {
      assert KeyOk(p, owner, k);
      if k in p.residents {
        var r := p.residents[k].ref;
        assert ClassOk(p, r.cls);
        PlacedInside(r.slot, r.size, p.classes[r.cls].perExtent, p.extentBytes);
      }
    }
    forall j, k ensures Apart(v, j, k) { assert KeyOk(p, owner, j) && KeyOk(p, owner, k); }
  }

  /** The slots of a bound extent split exactly into the free ones and the residents', and
      the counters of the two parts add up to the whole. */
  lemma {:induction false} SlotsPartitioned(p: Pool, owner: Owner, e: nat, s: nat)
    requires Sound(p, owner) && e < |p.extents| && p.extents[e].cls.Some?
    ensures p.extents[e].cls.value < |p.classes|
    ensures var c := p.classes[p.extents[e].cls.value];
      && p.extents[e].freeSlots + p.extents[e].count == c.perExtent
      && p.extents[e].freeSlots == |F.Of(c.free, e)| && Distinct(F.Of(c.free, e))
      && (s in F.Of(c.free, e) ==> s < c.perExtent && forall k ::
        k in p.residents ==> PlaceOf(p.residents[k].ref) != Place(e, s))
      && (s < c.perExtent && s !in F.Of(c.free, e) ==>
            exists k :: k in p.residents && PlaceOf(p.residents[k].ref) == Place(e, s))
  {
    assert ExtentOk(p, e) && SlotOk(p, owner, e, s) && OwnerOk(p, owner, Place(e, s));
    var c := p.extents[e].cls.value;
    assert ClassOk(p, c) && F.ExtentListed(p.classes[c].free, e);
    forall k ensures k in p.residents && PlaceOf(p.residents[k].ref) == Place(e, s) ==> Place(e, s) in owner {
      assert KeyOk(p, owner, k);
    }
  }

  lemma {:induction false} VacateEmpties(p: Pool, owner: Owner, k: BlockKey)
    requires Sound(p, owner) && k in p.residents && InPool(p, p.residents[k].ref)
    requires p.extents[p.residents[k].ref.extent].cls == Some(p.residents[k].ref.cls)
    ensures var e := p.residents[k].ref.extent; var q := Vacated(p, k);
      e < |q.extents| && q.extents[e].cls == Some(p.residents[k].ref.cls) && (GivesBack(q, e) ==> Emptied(q, e))
  {
    VacateKeeps(p, owner, k);
    assert KeyOk(p, owner, k);
    assert ExtentOk(Vacated(p, k), p.residents[k].ref.extent);
  }

  lemma {:induction false} FreeKeeps(p: Pool, owner: Owner, k: BlockKey)
    requires Sound(p, owner) && k in p.residents
    ensures InPool(p, p.residents[k].ref) && p.extents[p.residents[k].ref.extent].cls == Some(p.residents[k].ref.cls)
    ensures Sound(FreedSlot(p, k), owner - {PlaceOf(p.residents[k].ref)})
    ensures Seen(FreedSlot(p, k)) == Seen(p) - {k}
  {
    assert KeyOk(p, owner, k);
    VacateKeeps(p, owner, k);
    VacateEmpties(p, owner, k);
    var q, own, e := Vacated(p, k), owner - {PlaceOf(p.residents[k].ref)}, p.residents[k].ref.extent;
    if GivesBack(q, e) { ReleaseKeeps(q, own, e); }
  }

  lemma {:induction false} RefreshedFacts(s: seq<BlockKey>, k: BlockKey)
    requires Distinct(s) && k in s
    ensures Distinct(Refreshed(s, k)) && |Refreshed(s, k)| == |s|
    ensures forall j :: j in Refreshed(s, k) <==> j in s
  {
    WithoutDistinct(s, k);
    forall j ensures j in Without(s, k) <==> j in s && j != k { WithoutMembers(s, k, j); }
  }

  lemma {:induction false} TouchKeeps(p: Pool, owner: Owner, k: BlockKey)
    requires Sound(p, owner) && k in p.residents
    ensures InPool(p, p.residents[k].ref)
    ensures Sound(Touched(p, k), owner) && Seen(Touched(p, k)) == Seen(p)
  {
    assert KeyOk(p, owner, k);
    var m := p.residents[k];
    var c, e, t := m.ref.cls, m.ref.extent, Ticked(p);
    var n := m.(access := t.activity, referenced := true);
    TickKeeps(p, owner);
    ReviseKeeps(t, owner, k, n);
    var r := Revised(t, k, n);
    assert ClassOk(p, c) && MemberOk(p, c, k);
    RefreshedFacts(p.ring, k);
    RefreshedFacts(p.classes[c].ring, k);
    ReorderKeeps(r, owner, c, Refreshed(p.classes[c].ring, k), Refreshed(p.ring, k), e,
                 DecayedHeat(p.extents[e].heat, p.extents[e].heatSeq, t.activity) + 1024, t.activity);
  }

  /** A class that was short of slots keeps the extent it frees a slot in. */
  lemma {:induction false} FreedRoom(p: Pool, owner: Owner, k: BlockKey)
    requires Sound(p, owner) && k in p.residents
    ensures InPool(p, p.residents[k].ref) && p.extents[p.residents[k].ref.extent].cls == Some(p.residents[k].ref.cls)
    ensures var c, q := p.residents[k].ref.cls, FreedSlot(p, k);
      |p.classes[c].free.rr| < STRIPE_WAYS ==>
        q.unbound == p.unbound && q.classes[c].free.rr != [] && q.classes[c].free.count == p.classes[c].free.count + 1
    ensures var c, q := p.residents[k].ref.cls, FreedSlot(p, k);
      && q.classes[c].free.count <= p.classes[c].free.count + 1
      && (q.unbound == p.unbound + 1 || (q.unbound == p.unbound && q.classes[c].free.count > p.classes[c].free.count))
    ensures var r, q := p.residents[k].ref, FreedSlot(p, k);
      var f := p.classes[r.cls].free;
      q.unbound == p.unbound + 1 <==>
        p.extents[r.extent].count == 1 && |f.rr| + (if F.Of(f, r.extent) == [] then 1 else 0) > STRIPE_WAYS
  {
    assert ExtentOk(p, p.residents[k].ref.extent);
    LeavesFrom(p, owner, k);
    var r := p.residents[k].ref;
    F.PushFacts(p.classes[r.cls].free, r.extent, r.slot);
    F.DropExtentFacts(F.Push(p.classes[r.cls].free, r.extent, r.slot), r.extent);
    assert F.ExtentListed(F.Push(p.classes[r.cls].free, r.extent, r.slot), r.extent);
  }

  /** Two residents never share a table position. */
  lemma {:induction false} WipeOne(p: Pool, owner: Owner, k: BlockKey)
    requires Sound(p, owner) && k in p.residents
    ensures ClearsOnlyGone(Seen(p), {k}, {PlaceOf(p.residents[k].ref)})
  {
    forall j | j in p.residents && j != k ensures PlaceOf(p.residents[j].ref) != PlaceOf(p.residents[k].ref) {
      assert KeyOk(p, owner, j) && KeyOk(p, owner, k);
    }
  }

  lemma {:induction false} BoundWitness(x: seq<Extent>, c: Option<nat>) returns (e: nat)
    requires Bound(x, c) > 0
    ensures e < |x| && x[e].cls == c
  {
    var n := |x| - 1;
    if x[n].cls == c { e := n; } else { e := BoundWitness(x[..n], c); }
  }

  /** The first extent that belongs to no class. */
  method FirstUnbound(x: seq<Extent>) returns (e: nat)
    requires Bound(x, None) > 0
    ensures e < |x| && x[e].cls.None? && forall y :: 0 <= y < e ==> x[y].cls.Some?
  {
    ghost var w := BoundWitness(x, None);
    e := 0;
    while x[e].cls.Some?
      invariant e <= w < |x| && x[w].cls.None? && forall y :: 0 <= y < e ==> x[y].cls.Some?
      decreases w - e
    {
      e := e + 1;
    }
  }

  /** Freeing the first resident of an extent's list, and what remains of the extent. */
  lemma {:induction false} FreeHead(p: Pool, owner: Owner, e: nat)
    requires Sound(p, owner) && e < |p.extents| && p.extents[e].list != []
    ensures var k := p.extents[e].list[0];
      && k in p.residents && InPool(p, p.residents[k].ref)
        && p.extents[p.residents[k].ref.extent].cls == Some(p.residents[k].ref.cls)
      && p.residents[k].ref.extent == e
      && e < |FreedSlot(p, k).extents|
    ensures var q := FreedSlot(p, p.extents[e].list[0]);
      if q.extents[e].cls.Some?
      then q.extents[e].cls == p.extents[e].cls && q.extents[e].list == p.extents[e].list[1..] && q.unbound == p.unbound
      else q.extents[e].list == [] && p.extents[e].list[1..] == [] && q.unbound == p.unbound + 1
  {
    var list := p.extents[e].list;
    var k := list[0];
    assert ListedOk(p, e, k) && KeyOk(p, owner, k) && ExtentOk(p, e);
    WithoutAt(list, 0);
    assert list[..0] + list[1..] == list[1..];
    VacateEmpties(p, owner, k);
  }

  /** An exact counter at zero means there is none. */
  lemma {:induction false} NoneCounted(m: map<BlockKey, Meta>, e: nat, st: Stat, k: BlockKey)
    requires Total(m, OfExtent(e), st) == 0 && (st == Stat.Pinned || st == Protected)
    requires k in m && m[k].ref.extent == e
    ensures Weight(st, m[k]) == 0
  {
    SumRemove(m, k, Share(OfExtent(e), st));
    SumNonNegative(m - {k}, Share(OfExtent(e), st));
  }

  /** In an extent whose pinned and protected counters are zero everything may be evicted. */
  lemma {:induction false} StealEvictable(p: Pool, owner: Owner, e: nat, k: BlockKey)
    requires Sound(p, owner) && e < |p.extents| && p.extents[e].pinned == 0 && p.extents[e].protected == 0
    requires k in p.extents[e].list
    ensures k in p.residents && Evictable(ViewOf(p.residents[k]))
  {
    assert ExtentOk(p, e) && ListedOk(p, e, k);
    NoneCounted(p.residents, e, Stat.Pinned, k);
    NoneCounted(p.residents, e, Protected, k);
  }

  function Elems(s: seq<BlockKey>): set<BlockKey> {
    set k | k in s
  }

  /** Every table position of an extent: no slot is smaller than a byte. */
  function Places(e: nat, extentBytes: nat): set<Place> {
    set s | 0 <= s < extentBytes :: Place(e, s)
  }

  /** Wiping an extent's records clears its residents' and nobody else's. */
  lemma {:induction false} WipeExtent(p: Pool, owner: Owner, e: nat, gone: set<BlockKey>)
    requires Sound(p, owner) && e < |p.extents| && forall k :: k in gone <==> k in p.extents[e].list
    ensures ClearsOnlyGone(Seen(p), gone, Places(e, p.extentBytes))
  {
    forall k | k in p.residents ensures PlaceOf(p.residents[k].ref) in Places(e, p.extentBytes) <==> k in gone {
      assert KeyOk(p, owner, k) && ListedOk(p, e, k);
      var r := p.residents[k].ref;
      assert ClassOk(p, r.cls);
      PlacedInside(r.slot, r.size, p.classes[r.cls].perExtent, p.extentBytes);
      SlotBelow(r.slot, r.size, p.extentBytes);
    }
  }

  lemma {:induction false} SlotBelow(slot: nat, size: nat, extentBytes: nat)
    requires size > 0 && slot * size + size <= extentBytes
    ensures slot < extentBytes
  {
    assert slot * size >= slot;
  }

  /** From `p` to `q` exactly `evicted` left, nobody held or protected them, and their records
      and nobody else's were wiped. */
  ghost predicate Evicts(p: Pool, q: Pool, evicted: seq<BlockKey>, wiped: set<Place>, durable: bool) {
    && Seen(q) == Seen(p) - Elems(evicted)
    && AllEvictable(Seen(p), Elems(evicted))
    && (durable ==> ClearsOnlyGone(Seen(p), Elems(evicted), wiped))
  }

  lemma {:induction false} EvictsNone(p: Pool, q: Pool, durable: bool)
    requires Seen(q) == Seen(p)
    ensures Evicts(p, q, [], {}, durable)
  {
    assert Elems([]) == {};
    assert Seen(p) - {} == Seen(p);
  }

  lemma {:induction false} EvictsOne(p: Pool, q: Pool, k: BlockKey, wiped: set<Place>, durable: bool)
    requires k in Seen(p) && Evictable(Seen(p)[k]) && Seen(q) == Seen(p) - {k}
    requires durable ==> ClearsOnlyGone(Seen(p), {k}, wiped)
    ensures Evicts(p, q, [k], wiped, durable)
  {
    assert Elems([k]) == {k};
  }

  lemma {:induction false} EvictsExtent(p: Pool, q: Pool, owner: Owner, e: nat, wiped: set<Place>, durable: bool)
    requires Sound(p, owner) && e < |p.extents| && p.extents[e].pinned == 0 && p.extents[e].protected == 0
    requires q.residents == p.residents - Elems(p.extents[e].list)
    requires durable ==> wiped == Places(e, p.extentBytes)
    ensures Evicts(p, q, p.extents[e].list, wiped, durable)
  {
    var gone := Elems(p.extents[e].list);
    forall k | k in gone ensures k in Seen(p) && Evictable(Seen(p)[k]) { StealEvictable(p, owner, e, k); }
    WipeExtent(p, owner, e, gone);
  }

  /** Wipes that touch no resident may precede an eviction. */
  lemma {:induction false} EvictsAfter(p: Pool, q: Pool, r: Pool, early: set<Place>, evicted: seq<BlockKey>,
                                       wiped: set<Place>, durable: bool)
    requires Seen(q) == Seen(p) && (durable ==> ClearsOnlyGone(Seen(p), {}, early))
      && Evicts(q, r, evicted, wiped, durable)
    ensures Evicts(p, r, evicted, early + wiped, durable)
  {
  }

  /** Evictions add up. */
  lemma {:induction false} EvictsMore(p: Pool, q: Pool, r: Pool, a: seq<BlockKey>, u: set<Place>, b: seq<BlockKey>,
                                      w: set<Place>, durable: bool)
    requires Evicts(p, q, a, u, durable) && Evicts(q, r, b, w, durable)
    ensures Evicts(p, r, a + b, u + w, durable)
  {
    assert Elems(a + b) == Elems(a) + Elems(b);
    assert Seen(p) - Elems(a + b) == Seen(p) - Elems(a) - Elems(b);
  }

  /** The only resident of an extent is alone on its records. */
  lemma {:induction false} WipeLast(p: Pool, owner: Owner, k: BlockKey)
    requires Sound(p, owner) && k in p.residents && p.residents[k].ref.extent < |p.extents|
    requires p.extents[p.residents[k].ref.extent].count == 1
    ensures ClearsOnlyGone(Seen(p), {k}, Places(p.residents[k].ref.extent, p.extentBytes))
  {
    var e := p.residents[k].ref.extent;
    assert ExtentOk(p, e) && ListedOk(p, e, k);
    assert p.extents[e].list == [p.extents[e].list[0]];
    WipeExtent(p, owner, e, {k});
  }
}
