/** Rebuilding residents from persisted records: when a batch is acceptable, and why an
    acceptable batch installs without a failure. */
module RestoreBulk {
  import opened Types
  import opened Lifecycle
  import opened SweepOrder
  import opened SlabPool
  import opened SlabInvariant
  import opened SlabKeeps
  import opened SizeClasses
  import opened SlabShape
  import opened Wheel
  import F = FreeLists

  datatype RestoreEntry = RestoreEntry(key: BlockKey, size: nat, extent: nat, slot: nat, bytes: nat, until: nat,
                                       ttl: nat)

  /** One entry can be installed in `p`: its geometry is a class, its key is new, and its slot
      is free or belongs to an unbound extent. */
  predicate Restorable(p: Pool, g: Geometry, en: RestoreEntry)
    requires SizeClasses.Sound(g)
  {
    && 0 < en.size <= p.extentBytes && en.extent < |p.extents| && en.bytes <= en.size
    && Canonical(g, en.size) == en.size && en.size in Sizes(p.classes)
    && en.slot < p.extentBytes / en.size
    && en.key !in p.residents
    && FitsExtent(p, en)
  }

  predicate FitsExtent(p: Pool, en: RestoreEntry)
    requires en.extent < |p.extents|
  {
    p.extents[en.extent].cls.Some? ==>
      && p.extents[en.extent].cls.value < |p.classes|
      && p.classes[p.extents[en.extent].cls.value].size == en.size
      && en.slot in F.Of(p.classes[p.extents[en.extent].cls.value].free, en.extent)
  }

  /** A slot of the class lattice in one of `extents` extents. */
  predicate Slotted(g: Geometry, sizes: seq<nat>, extents: nat, ref: SlotRef) {
    && ref.size in sizes && ref.cls == Index(sizes, ref.size) && ref.size > 0
    && ref.extent < extents && ref.slot < g.extentBytes / ref.size && ref.offset == ref.slot * ref.size
  }

  /** Nothing is bound and nothing is resident. */
  predicate Untouched(p: Pool) {
    p.residents == map[] && forall e :: 0 <= e < |p.extents| ==> p.extents[e].cls.None?
  }

  /** Two entries of one batch do not get in each other's way. */
  predicate Compatible(a: RestoreEntry, b: RestoreEntry) {
    && a.key != b.key
    && (a.extent == b.extent ==> a.size == b.size && a.slot != b.slot)
  }

  /** The whole batch can be installed. */
  ghost predicate Acceptable(p: Pool, g: Geometry, entries: seq<RestoreEntry>)
    requires SizeClasses.Sound(g)
  {
    && (forall i :: 0 <= i < |entries| ==> Restorable(p, g, entries[i]))
    && (forall i, j :: 0 <= i < j < |entries| ==> Compatible(entries[i], entries[j]))
  }

  function Index(sizes: seq<nat>, size: nat): (c: nat)
    requires size in sizes
    ensures c < |sizes| && sizes[c] == size
  {
    if sizes[0] == size then 0 else 1 + Index(sizes[1..], size)
  }

  /** Binding the extent of one entry leaves the others installable. */
  lemma {:induction false} BindKeepsFit(p: Pool, g: Geometry, c: nat, e: nat, free: F.FreeLists, en: RestoreEntry)
    requires SizeClasses.Sound(g) && Shaped(g, p.classes) && p.extentBytes == g.extentBytes
    requires Carved(p, c, e, free) && Restorable(p, g, en)
    requires en.extent == e ==> en.size == p.classes[c].size
    ensures Restorable(BoundTo(p, c, e, free), g, en)
  {
    var q := BoundTo(p, c, e, free);
    assert Sizes(q.classes) == Sizes(p.classes);
    var f := p.classes[c].free;
    assert en.extent != e ==> (en.extent in f.lists <==> en.extent in f.lists - {e});
    assert en.extent != e ==> (en.extent in free.lists <==> en.extent in free.lists - {e});
  }

  /** Installing one entry leaves the others installable. */
  lemma {:induction false} InstallKeepsFit(p: Pool, g: Geometry, owner: Owner, k: BlockKey, m: Meta, free: F.FreeLists,
                                           en: RestoreEntry)
    requires SizeClasses.Sound(g) && Installable(p, owner, k, m, free) && Restorable(p, g, en)
    requires en.key != k && (en.extent == m.ref.extent ==> en.slot != m.ref.slot)
    ensures Restorable(Installed(p, k, m, free, 0), g, en)
  {
    var q := Installed(p, k, m, free, 0);
    assert Sizes(q.classes) == Sizes(p.classes);
    var f, e := p.classes[m.ref.cls].free, m.ref.extent;
    assert en.extent != e ==> (en.extent in f.lists <==> en.extent in f.lists - {e});
    assert en.extent != e ==> (en.extent in free.lists <==> en.extent in free.lists - {e});
  }

  // ------------------------------------------------------------ validation

  function KeysOf(entries: seq<RestoreEntry>): set<BlockKey> {
    set i | 0 <= i < |entries| :: entries[i].key
  }

  function PlacesOf(entries: seq<RestoreEntry>): set<Place> {
    set i | 0 <= i < |entries| :: Place(entries[i].extent, entries[i].slot)
  }

  /** `sizes` records the slot size each extent is used with. */
  ghost predicate SizesOf(entries: seq<RestoreEntry>, sizes: map<nat, nat>) {
    && (forall i :: 0 <= i < |entries| ==> entries[i].extent in sizes && sizes[entries[i].extent] == entries[i].size)
    && (forall e :: e in sizes ==> exists i :: 0 <= i < |entries| && entries[i].extent == e)
  }

  /** The next entry passes the three checks against the entries before it. */
  predicate Passes(done: seq<RestoreEntry>, sizes: map<nat, nat>, en: RestoreEntry) {
    && en.key !in KeysOf(done) && Place(en.extent, en.slot) !in PlacesOf(done)
    && (en.extent in sizes ==> sizes[en.extent] == en.size)
  }

  lemma {:induction false} PassingIsCompatible(done: seq<RestoreEntry>, sizes: map<nat, nat>, en: RestoreEntry, i: nat)
    requires SizesOf(done, sizes) && Passes(done, sizes, en) && i < |done|
    ensures Compatible(done[i], en)
  {
    assert done[i].key in KeysOf(done) && Place(done[i].extent, done[i].slot) in PlacesOf(done);
  }

  lemma {:induction false} FailingHasRival(done: seq<RestoreEntry>, sizes: map<nat, nat>, en: RestoreEntry)
    returns (i: nat)
    requires SizesOf(done, sizes) && !Passes(done, sizes, en)
    ensures i < |done| && !Compatible(done[i], en)
  {
    if en.key in KeysOf(done) {
      i :| 0 <= i < |done| && done[i].key == en.key;
    } else if Place(en.extent, en.slot) in PlacesOf(done) {
      i :| 0 <= i < |done| && Place(done[i].extent, done[i].slot) == Place(en.extent, en.slot);
    } else {
      i :| 0 <= i < |done| && done[i].extent == en.extent;
    }
  }

  lemma {:induction false} SizesGrow(done: seq<RestoreEntry>, sizes: map<nat, nat>, en: RestoreEntry)
    requires SizesOf(done, sizes) && (en.extent in sizes ==> sizes[en.extent] == en.size)
    ensures SizesOf(done + [en], sizes[en.extent := en.size])
  {
    var t, z := done + [en], sizes[en.extent := en.size];
    forall e | e in z ensures exists i :: 0 <= i < |t| && t[i].extent == e {
      if e in sizes {
        var i :| 0 <= i < |done| && done[i].extent == e;
        assert t[i].extent == e;
      } else {
        assert t[|done|].extent == e;
      }
    }
  }

  lemma {:induction false} SetsGrow(done: seq<RestoreEntry>, en: RestoreEntry)
    ensures KeysOf(done + [en]) == KeysOf(done) + {en.key}
    ensures PlacesOf(done + [en]) == PlacesOf(done) + {Place(en.extent, en.slot)}
  {
    var t := done + [en];
    assert t[|done|] == en;
    forall k | k in KeysOf(done) ensures k in KeysOf(t) {
      var i :| 0 <= i < |done| && done[i].key == k;
      assert t[i].key == k;
    }
    forall k | k in PlacesOf(done) ensures k in PlacesOf(t) {
      var i :| 0 <= i < |done| && Place(done[i].extent, done[i].slot) == k;
      assert Place(t[i].extent, t[i].slot) == k;
    }
  }

  /** An entry that fits and passes extends an acceptable batch; any other one spoils it. */
  lemma {:induction false} AcceptableNext(p: Pool, g: Geometry, entries: seq<RestoreEntry>, sizes: map<nat, nat>,
                                          i: nat)
    requires SizeClasses.Sound(g) && i < |entries| && SizesOf(entries[..i], sizes) && Acceptable(p, g, entries[..i])
    ensures Restorable(p, g, entries[i]) && Passes(entries[..i], sizes, entries[i])
      ==> Acceptable(p, g, entries[..i + 1])
    ensures !(Restorable(p, g, entries[i]) && Passes(entries[..i], sizes, entries[i])) ==> !Acceptable(p, g, entries)
  {
    var done, en := entries[..i], entries[i];
    if Passes(done, sizes, en) {
      forall j | 0 <= j < i ensures Compatible(done[j], en) { PassingIsCompatible(done, sizes, en, j); }
    } else {
      var j := FailingHasRival(done, sizes, en);
      assert !Compatible(entries[j], entries[i]);
    }
  }

  /** One pass decides whether the whole batch is acceptable. */
  method Validate(p: Pool, g: Geometry, entries: seq<RestoreEntry>) returns (ok: bool)
    requires SizeClasses.Sound(g)
    ensures ok <==> Acceptable(p, g, entries)
  {
    var keys: set<BlockKey>, places: set<Place>, sizes: map<nat, nat> := {}, {}, map[];
    for i := 0 to |entries|
      invariant Acceptable(p, g, entries[..i])
      invariant keys == KeysOf(entries[..i]) && places == PlacesOf(entries[..i]) && SizesOf(entries[..i], sizes)
    {
      var en := entries[i];
      assert entries[..i + 1] == entries[..i] + [en];
      AcceptableNext(p, g, entries, sizes, i);
      if !Restorable(p, g, en) || en.key in keys || Place(en.extent, en.slot) in places
         || (en.extent in sizes && sizes[en.extent] != en.size) { return false; }
      SizesGrow(entries[..i], sizes, en);
      SetsGrow(entries[..i], en);
      keys, places, sizes := keys + {en.key}, places + {Place(en.extent, en.slot)}, sizes[en.extent := en.size];
    }
    assert entries[..|entries|] == entries;
    return true;
  }

  // ------------------------------------------------------------ installation

  function RefOf(c: nat, en: RestoreEntry): SlotRef {
    SlotRef(c, en.extent, en.slot, en.size, en.slot * en.size)
  }

  /** A persisted protection that is still in the future comes back, clamped to the current
      cap; a passed one leaves its time-to-live behind. */
  function RestoredMeta(r: Retention, c: nat, en: RestoreEntry): Meta {
    var ttl := if r.enabled then Lower(en.ttl, r.maxTtl) else 0;
    var until := if r.enabled && en.until > r.now && en.ttl != 0 then Lower(en.until, r.now + ttl) else 0;
    Meta(RefOf(c, en), en.bytes, 0, 0, false, false, until, ttl)
  }

  /** A restored protection ends with the persisted deadline or with its lifetime from now on,
      whichever comes first; one that has passed, or has no lifetime, does not come back. */
  lemma {:induction false} RestoredDeadline(r: Retention, c: nat, en: RestoreEntry)
    requires WheelShape(r)
    ensures var m := RestoredMeta(r, c, en);
      && (m.until != 0 <==> r.enabled && en.until > r.now && en.ttl != 0)
      && (m.until != 0 ==> m.until <= en.until && m.until <= r.now + r.maxTtl && m.until <= r.now + en.ttl)
      && (m.until != 0 ==> m.until == en.until || m.until == r.now + Lower(en.ttl, r.maxTtl))
      && (r.enabled ==> m.ttl == Lower(en.ttl, r.maxTtl))
  {
  }

  /** The slot of an entry that fits a bound extent can be taken. */
  lemma {:induction false} RestoreInstallable(p: Pool, g: Geometry, owner: Owner, r: Retention, c: nat,
                                              en: RestoreEntry)
    requires SizeClasses.Sound(g) && Shaped(g, p.classes) && p.extentBytes == g.extentBytes
      && SlabInvariant.Sound(p, owner)
    requires Restorable(p, g, en) && c < |p.classes| && p.extents[en.extent].cls == Some(c)
      && p.classes[c].size == en.size
    ensures en.slot in F.Of(p.classes[c].free, en.extent)
    ensures Installable(p, owner, en.key, RestoredMeta(r, c, en), F.Take(p.classes[c].free, en.extent, en.slot))
  {
    assert ClassOk(p, c) && ExtentOk(p, en.extent);
    F.TakeFacts(p.classes[c].free, en.extent, en.slot);
  }

  /** Every entry, in order, on its own slot. */
  function WithRestored(m: map<BlockKey, Meta>, r: Retention, sizes: seq<nat>,
                        entries: seq<RestoreEntry>): map<BlockKey, Meta>
    requires forall i :: 0 <= i < |entries| ==> entries[i].size in sizes
  {
    if entries == [] then m
    else
      var en := entries[|entries| - 1];
      WithRestored(m, r, sizes, entries[..|entries| - 1])[en.key := RestoredMeta(r, Index(sizes, en.size), en)]
  }

  lemma {:induction false} OneIndex(g: Geometry, sizes: seq<nat>, c: nat, size: nat)
    requires SizeClasses.Sound(g) && Lattice(g, sizes) && c < |sizes| && sizes[c] == size
    ensures size in sizes && Index(sizes, size) == c
  {
    assert size in sizes;
    var d := Index(sizes, size);
    if c < d { LatticeAscends(g, sizes, c, d); }
    if d < c { LatticeAscends(g, sizes, d, c); }
  }

  // ------------------------------------------------------------ what a rebuild meets

  /** Every slot the allocator hands out is one a later restore accepts. */
  lemma {:induction false} ResidentsSlotted(p: Pool, g: Geometry, owner: Owner, k: BlockKey)
    requires SizeClasses.Sound(g) && Shaped(g, p.classes) && SlabInvariant.Sound(p, owner) && k in p.residents
    ensures Slotted(g, Sizes(p.classes), |p.extents|, p.residents[k].ref)
  {
    assert KeyOk(p, owner, k);
    var c := p.residents[k].ref.cls;
    OneIndex(g, Sizes(p.classes), c, p.classes[c].size);
  }

  predicate Names(en: RestoreEntry, k: BlockKey, ref: SlotRef) {
    en.key == k && en.size == ref.size && en.extent == ref.extent && en.slot == ref.slot && en.bytes <= en.size
  }

  lemma {:induction false} SlottedIsRestorable(p: Pool, g: Geometry, sizes: seq<nat>, en: RestoreEntry, ref: SlotRef)
    requires SizeClasses.Sound(g) && Lattice(g, sizes) && Untouched(p) && p.extentBytes == g.extentBytes
      && Sizes(p.classes) == sizes
    requires Slotted(g, sizes, |p.extents|, ref) && Names(en, en.key, ref)
    ensures Restorable(p, g, en)
  {
    var c := Index(sizes, ref.size);
    LatticeAligned(g, sizes, c);
    MaxAligned(g);
    FixedPointsAreClasses(g, sizes, ref.size);
  }

  /** Any list of the residents of an allocator is acceptable to a new one of its geometry. */
  lemma {:induction false} ResidentsAcceptable(p: Pool, g: Geometry, owner: Owner, q: Pool, entries: seq<RestoreEntry>)
    requires SizeClasses.Sound(g) && Shaped(g, p.classes) && SlabInvariant.Sound(p, owner)
    requires Untouched(q) && q.extentBytes == g.extentBytes && Sizes(q.classes) == Sizes(p.classes)
      && |q.extents| == |p.extents|
    requires forall i :: 0 <= i < |entries| ==>
      entries[i].key in p.residents && Names(entries[i], entries[i].key, p.residents[entries[i].key].ref)
    requires forall i, j :: 0 <= i < j < |entries| ==> entries[i].key != entries[j].key
    ensures Acceptable(q, g, entries)
  {
    forall i | 0 <= i < |entries| ensures Restorable(q, g, entries[i]) {
      var k := entries[i].key;
      ResidentsSlotted(p, g, owner, k);
      SlottedIsRestorable(q, g, Sizes(p.classes), entries[i], p.residents[k].ref);
    }
    forall i, j | 0 <= i < j < |entries| ensures Compatible(entries[i], entries[j]) {
      assert KeyOk(p, owner, entries[i].key) && KeyOk(p, owner, entries[j].key);
    }
  }

  /** A restored deadline lies in a tick still to come. */
  lemma {:induction false} RestoredTimed(timely: bool, m: map<BlockKey, Meta>, r: Retention, c: nat, en: RestoreEntry)
    requires (timely ==> WheelOk(m, r)) && en.key !in m
    ensures var n := RestoredMeta(r, c, en);
      timely ==> WheelOk(m[en.key := n], if n.until != 0 then PushWheel(r, en.key, n.until) else r)
  {
    var n := RestoredMeta(r, c, en);
    if timely && n.until != 0 {
      TickAhead(r.tick, r.now, n.until);
      WheelPushed(m, r, en.key, n);
    } else if timely {
      WheelKept(timely, m, m[en.key := n], r);
    }
  }

  /** From entry `i` on everything still fits. */
  ghost predicate RestFits(p: Pool, g: Geometry, entries: seq<RestoreEntry>, i: nat)
    requires SizeClasses.Sound(g)
  {
    forall j :: i <= j < |entries| ==> Restorable(p, g, entries[j])
  }

  /** What has been installed after `i` entries. */
  ghost predicate InstalledSoFar(p: Pool, q: Pool, r: Retention, entries: seq<RestoreEntry>, i: nat) {
    && i <= |entries| && SameShape(p, q)
    && (forall j :: 0 <= j < i ==> entries[j].size in Sizes(p.classes))
    && q.residents == WithRestored(p.residents, r, Sizes(p.classes), entries[..i])
    && (p.residents == map[] ==> NeverRead(q.residents))
  }

  lemma {:induction false} InstallsOneMore(p: Pool, q: Pool, t: Pool, g: Geometry, r: Retention, s: Retention,
                                           entries: seq<RestoreEntry>, i: nat)
    requires SizeClasses.Sound(g) && Acceptable(p, g, entries) && i < |entries|
    requires InstalledSoFar(p, q, r, entries, i) && RestFits(q, g, entries, i) && SameShape(q, t)
    requires s == r.(wheel := s.wheel) && entries[i].size in Sizes(q.classes)
    requires t.residents == q.residents[entries[i].key := RestoredMeta(s, Index(Sizes(q.classes), entries[i].size),
        entries[i])]
    requires forall x :: Restorable(q, g, x) && Compatible(entries[i], x) ==> Restorable(t, g, x)
    ensures InstalledSoFar(p, t, r, entries, i + 1) && RestFits(t, g, entries, i + 1)
  {
    assert Sizes(q.classes) == Sizes(p.classes);
    assert entries[..i + 1][..i] == entries[..i];
  }
}
