/** Sizes never change after construction, and how the least-recently-used order fares. */
module SlabShape {
  import opened Types
  import opened SweepOrder
  import opened SlabPool
  import opened SlabInvariant
  import opened SlabKeeps
  import opened SlabFacts
  import opened SizeClasses
  import opened ClockSweep
  import F = FreeLists

  /** The classes are the lattice of the geometry, each with as many slots as fit an extent. */
  ghost predicate Shaped(g: Geometry, classes: seq<Class>)
    requires SizeClasses.Sound(g)
  {
    && Lattice(g, Sizes(classes))
    && forall c :: 0 <= c < |classes| ==> classes[c].size > 0 && classes[c].perExtent == g.extentBytes / classes[c].size
  }

  /** `q` has the classes and extents of `p`. */
  ghost predicate SameShape(p: Pool, q: Pool) {
    && q.extentBytes == p.extentBytes && |q.extents| == |p.extents| && |q.classes| == |p.classes|
    && forall c ::
      0 <= c < |p.classes| ==>
        q.classes[c].size == p.classes[c].size && q.classes[c].perExtent == p.classes[c].perExtent
  }

  lemma {:induction false} ShapeKept(g: Geometry, p: Pool, q: Pool)
    requires SizeClasses.Sound(g) && Shaped(g, p.classes) && SameShape(p, q)
    ensures Shaped(g, q.classes)
  {
    assert Sizes(q.classes) == Sizes(p.classes);
  }

  lemma {:induction false} FreeShape(p: Pool, k: BlockKey)
    requires k in p.residents && InPool(p, p.residents[k].ref)
    requires p.extents[p.residents[k].ref.extent].cls == Some(p.residents[k].ref.cls)
    ensures SameShape(p, FreedSlot(p, k)) && FreedSlot(p, k).residents == p.residents - {k}
  {
  }

  lemma {:induction false} ReviseShape(p: Pool, k: BlockKey, n: Meta)
    requires k in p.residents && InPool(p, p.residents[k].ref)
    ensures SameShape(p, Revised(p, k, n)) && Revised(p, k, n).residents == p.residents[k := n]
  {
  }

  lemma {:induction false} TouchShape(p: Pool, k: BlockKey)
    requires k in p.residents && InPool(p, p.residents[k].ref)
    ensures SameShape(p, Touched(p, k))
  {
  }

  lemma {:induction false} SweepShape(p: Pool, c: nat, order: seq<BlockKey>, t: map<BlockKey, Meta>)
    requires c < |p.classes|
    ensures SameShape(p, Sweeping(p, c, order, t))
  {
  }

  lemma {:induction false} InstallShape(p: Pool, k: BlockKey, m: Meta, free: F.FreeLists, y: nat)
    requires InPool(p, m.ref)
    ensures SameShape(p, Installed(p, k, m, free, y))
  {
  }

  lemma {:induction false} BindShape(p: Pool, c: nat, e: nat, free: F.FreeLists)
    requires c < |p.classes| && e < |p.extents|
    ensures SameShape(p, BoundTo(p, c, e, free))
  {
  }

  lemma {:induction false} ReleaseShape(p: Pool, e: nat)
    requires e < |p.extents| && p.extents[e].cls.Some? && p.extents[e].cls.value < |p.classes|
    ensures SameShape(p, Released(p, e))
  {
  }

  // ------------------------------------------------------------ recency

  function AccessOf(r: map<BlockKey, Meta>, k: BlockKey): nat {
    if k in r then r[k].access else 0
  }

  /** `s` is least recently accessed first. */
  predicate ByAccess(s: seq<BlockKey>, r: map<BlockKey, Meta>) {
    forall i, j :: 0 <= i < j < |s| ==> AccessOf(r, s[i]) <= AccessOf(r, s[j])
  }

  predicate Lru(p: Pool) {
    ByAccess(p.ring, p.residents)
  }

  lemma {:induction false} ByAccessSame(s: seq<BlockKey>, r: map<BlockKey, Meta>, t: map<BlockKey, Meta>)
    requires ByAccess(s, r) && forall i :: 0 <= i < |s| ==> AccessOf(t, s[i]) == AccessOf(r, s[i])
    ensures ByAccess(s, t)
  {
  }

  lemma {:induction false} ByAccessWithout(s: seq<BlockKey>, r: map<BlockKey, Meta>, k: BlockKey)
    requires ByAccess(s, r) && Distinct(s)
    ensures ByAccess(Without(s, k), r)
  {
    if i :| 0 <= i < |s| && s[i] == k {
      WithoutAt(s, i);
    } else {
      WithoutAbsent(s, k);
    }
  }

  lemma {:induction false} ByAccessAppend(s: seq<BlockKey>, r: map<BlockKey, Meta>, k: BlockKey, now: nat)
    requires ByAccess(s, r) && k !in s && forall j :: AccessOf(r, j) <= now
    ensures forall m: Meta :: m.access >= now ==> ByAccess(s + [k], r[k := m])
  {
    forall m: Meta | m.access >= now ensures ByAccess(s + [k], r[k := m]) {
      forall i | 0 <= i < |s| ensures AccessOf(r[k := m], s[i]) == AccessOf(r, s[i]) { assert s[i] in s; }
    }
  }

  lemma {:induction false} AccessBounded(p: Pool, owner: Owner)
    requires SlabInvariant.Sound(p, owner)
    ensures forall k :: AccessOf(p.residents, k) <= p.activity
  {
    forall k ensures AccessOf(p.residents, k) <= p.activity { assert KeyOk(p, owner, k); }
  }

  /** Freeing keeps the order. */
  lemma {:induction false} FreeLru(p: Pool, owner: Owner, k: BlockKey)
    requires SlabInvariant.Sound(p, owner) && k in p.residents && Lru(p)
    requires InPool(p, p.residents[k].ref) && p.extents[p.residents[k].ref.extent].cls == Some(p.residents[k].ref.cls)
    ensures Lru(FreedSlot(p, k))
  {
    FreeShape(p, k);
    ByAccessWithout(p.ring, p.residents, k);
    var s := Without(p.ring, k);
    forall i | 0 <= i < |s| ensures AccessOf(p.residents - {k}, s[i]) == AccessOf(p.residents, s[i]) {
      WithoutMembers(p.ring, k, s[i]);
    }
    ByAccessSame(s, p.residents, p.residents - {k});
  }

  /** A read keeps the order: the element read becomes the most recent. */
  lemma {:induction false} TouchLru(p: Pool, owner: Owner, k: BlockKey)
    requires SlabInvariant.Sound(p, owner) && k in p.residents && InPool(p, p.residents[k].ref) && Lru(p)
    ensures Lru(Touched(p, k))
  {
    AccessBounded(p, owner);
    ByAccessWithout(p.ring, p.residents, k);
    WithoutMembers(p.ring, k, k);
    ByAccessAppend(Without(p.ring, k), p.residents, k, p.activity);
  }

  /** A new resident is the most recent. */
  lemma {:induction false} InstallLru(p: Pool, owner: Owner, k: BlockKey, m: Meta, free: F.FreeLists, y: nat)
    requires SlabInvariant.Sound(p, owner) && k !in p.residents && InPool(p, m.ref) && Lru(p) && m.access == p.activity
    ensures Lru(Installed(p, k, m, free, y))
  {
    AccessBounded(p, owner);
    assert KeyOk(p, owner, k);
    ByAccessAppend(p.ring, p.residents, k, p.activity);
  }

  lemma {:induction false} ReviseLru(p: Pool, k: BlockKey, n: Meta)
    requires k in p.residents && InPool(p, p.residents[k].ref) && Lru(p) && n.access == p.residents[k].access
    ensures Lru(Revised(p, k, n))
  {
    ByAccessSame(p.ring, p.residents, p.residents[k := n]);
  }

  /** Binding an extent changes nothing that clients see. */
  lemma {:induction false} BindFacts(g: Geometry, p: Pool, owner: Owner, c: nat, e: nat, free: F.FreeLists)
    requires SizeClasses.Sound(g) && Shaped(g, p.classes) && SlabInvariant.Sound(p, owner) && Carved(p, c, e, free)
    ensures var q := BoundTo(p, c, e, free);
      && SlabInvariant.Sound(q, owner) && Shaped(g, q.classes) && SameShape(p, q)
      && Seen(q) == Seen(p) && q.residents == p.residents && (Lru(p) ==> Lru(q))
  {
    BindKeeps(p, owner, c, e, free);
    BindShape(p, c, e, free);
    ShapeKept(g, p, BoundTo(p, c, e, free));
  }

  lemma {:induction false} ReleaseFacts(g: Geometry, p: Pool, owner: Owner, e: nat)
    requires SizeClasses.Sound(g) && Shaped(g, p.classes) && SlabInvariant.Sound(p, owner) && Emptied(p, e)
    ensures var q := Released(p, e);
      && SlabInvariant.Sound(q, owner) && Shaped(g, q.classes) && SameShape(p, q)
      && Seen(q) == Seen(p) && q.residents == p.residents && (Lru(p) ==> Lru(q))
  {
    ReleaseKeeps(p, owner, e);
    ReleaseShape(p, e);
    ShapeKept(g, p, Released(p, e));
  }

  lemma {:induction false} FreeFacts(g: Geometry, p: Pool, owner: Owner, k: BlockKey)
    requires SizeClasses.Sound(g) && Shaped(g, p.classes) && SlabInvariant.Sound(p, owner) && k in p.residents
    ensures InPool(p, p.residents[k].ref) && p.extents[p.residents[k].ref.extent].cls == Some(p.residents[k].ref.cls)
    ensures var q := FreedSlot(p, k);
      && SlabInvariant.Sound(q, owner - {PlaceOf(p.residents[k].ref)}) && Shaped(g, q.classes) && SameShape(p, q)
      && Seen(q) == Seen(p) - {k} && q.residents == p.residents - {k} && (Lru(p) ==> Lru(q))
  {
    FreeKeeps(p, owner, k);
    FreeShape(p, k);
    ShapeKept(g, p, FreedSlot(p, k));
    if Lru(p) { FreeLru(p, owner, k); }
  }

  lemma {:induction false} ReviseFacts(g: Geometry, p: Pool, owner: Owner, k: BlockKey, n: Meta)
    requires SizeClasses.Sound(g) && Shaped(g, p.classes) && SlabInvariant.Sound(p, owner) && Revises(p, k, n)
    ensures var q := Revised(p, k, n);
      && SlabInvariant.Sound(q, owner) && Shaped(g, q.classes) && SameShape(p, q)
      && Seen(q) == Seen(p)[k := ViewOf(n)] && q.residents == p.residents[k := n]
      && (Lru(p) && n.access == p.residents[k].access ==> Lru(q))
  {
    ReviseKeeps(p, owner, k, n);
    ReviseShape(p, k, n);
    ShapeKept(g, p, Revised(p, k, n));
    if Lru(p) && n.access == p.residents[k].access { ReviseLru(p, k, n); }
  }

  // ------------------------------------------------------------ emptying an extent

  /** What remains of extent `e` after its first residents were freed. The extent may already
      have gone back to the pool with its last resident. */
  predicate Emptying(p: Pool, q: Pool, e: nat, evicted: seq<BlockKey>) {
    && e < |p.extents| && e < |q.extents|
    && evicted + q.extents[e].list == p.extents[e].list
    && (if q.extents[e].cls == p.extents[e].cls then q.unbound == p.unbound
        else q.extents[e].cls.None? && q.extents[e].list == [] && q.unbound == p.unbound + 1)
  }

  /** `q` is `p` without the evicted residents. */
  ghost predicate EmptySoFar(g: Geometry, p: Pool, q: Pool, own: Owner, e: nat, evicted: seq<BlockKey>)
    requires SizeClasses.Sound(g)
  {
    && SlabInvariant.Sound(q, own) && Shaped(g, q.classes) && SameShape(p, q) && (Lru(p) ==> Lru(q))
    && q.residents == p.residents - Elems(evicted)
    && Emptying(p, q, e, evicted)
  }

  lemma {:induction false} EmptyStarts(g: Geometry, p: Pool, owner: Owner, e: nat)
    requires SizeClasses.Sound(g) && Shaped(g, p.classes) && SlabInvariant.Sound(p, owner) && e < |p.extents|
    ensures EmptySoFar(g, p, p, owner, e, [])
  {
    assert p.residents - {} == p.residents && Elems([]) == {};
  }

  lemma {:induction false} EmptiesMore(p: Pool, q: Pool, own: Owner, e: nat, evicted: seq<BlockKey>)
    requires SlabInvariant.Sound(q, own) && Emptying(p, q, e, evicted) && q.extents[e].list != []
    ensures var k := q.extents[e].list[0];
      && k in q.residents && InPool(q, q.residents[k].ref)
        && q.extents[q.residents[k].ref.extent].cls == Some(q.residents[k].ref.cls)
      && Emptying(p, FreedSlot(q, k), e, evicted + [k])
      && |FreedSlot(q, k).extents[e].list| < |q.extents[e].list|
  {
    var list := q.extents[e].list;
    FreeHead(q, own, e);
    assert (evicted + [list[0]]) + list[1..] == evicted + list;
  }

  lemma {:induction false} MinusMore(m: map<BlockKey, Meta>, gone: seq<BlockKey>, k: BlockKey)
    ensures m - Elems(gone + [k]) == m - Elems(gone) - {k}
  {
    assert Elems(gone + [k]) == Elems(gone) + {k};
  }

  lemma {:induction false} EmptyStep(g: Geometry, p: Pool, q: Pool, own: Owner, e: nat, evicted: seq<BlockKey>)
    requires SizeClasses.Sound(g) && EmptySoFar(g, p, q, own, e, evicted) && q.extents[e].list != []
    ensures var k := q.extents[e].list[0];
      && k in q.residents && InPool(q, q.residents[k].ref)
        && q.extents[q.residents[k].ref.extent].cls == Some(q.residents[k].ref.cls)
      && EmptySoFar(g, p, FreedSlot(q, k), own - {PlaceOf(q.residents[k].ref)}, e, evicted + [k])
      && |FreedSlot(q, k).extents[e].list| < |q.extents[e].list|
  {
    var k := q.extents[e].list[0];
    EmptiesMore(p, q, own, e, evicted);
    FreeFacts(g, q, own, k);
    MinusMore(p.residents, evicted, k);
  }

  // ------------------------------------------------------------ placing a value

  function Sizes(classes: seq<Class>): seq<nat> {
    seq(|classes|, i requires 0 <= i < |classes| => classes[i].size)
  }

  /** The slot whose turn it is in class `c`, as metadata for a value of `len` bytes. */
  function FreshMeta(p: Pool, c: nat, len: nat): Meta
    requires c < |p.classes| && p.classes[c].free.rr != []
    requires F.Of(p.classes[c].free, p.classes[c].free.rr[F.Turn(p.classes[c].free)]) != []
  {
    var f, size := p.classes[c].free, p.classes[c].size;
    var e := f.rr[F.Turn(f)];
    var s := F.Of(f, e)[|F.Of(f, e)| - 1];
    Meta(SlotRef(c, e, s, size, s * size), len, p.activity, 0, false, false, 0, 0)
  }

  lemma {:induction false} FreshInstallable(p: Pool, owner: Owner, c: nat, len: nat, k: BlockKey)
    requires SlabInvariant.Sound(p, owner) && c < |p.classes| && p.classes[c].free.rr != [] && k !in p.residents
    ensures F.Of(p.classes[c].free, p.classes[c].free.rr[F.Turn(p.classes[c].free)]) != []
    ensures Installable(p, owner, k, FreshMeta(p, c, len), F.Pop(p.classes[c].free))
  {
    var f := p.classes[c].free;
    assert ClassOk(p, c);
    F.PopFacts(f);
    var e := f.rr[F.Turn(f)];
    var m := FreshMeta(p, c, len);
    assert FreeOk(p, c, e) && SlotOk(p, owner, e, m.ref.slot) && F.ExtentListed(f, e);
    LastOut(F.Of(f, e), F.Of(F.Pop(f), e));
  }

  lemma {:induction false} LastOut(s: seq<nat>, t: seq<nat>)
    requires s != [] && Distinct(s) && s == t + [s[|s| - 1]]
    ensures forall x :: x in t <==> x in s && x != s[|s| - 1]
  {
    forall x | x in t ensures x in s && x != s[|s| - 1] {
      var i :| 0 <= i < |t| && t[i] == x;
      assert s[i] == x;
    }
  }

  lemma {:induction false} InstallFacts(g: Geometry, p: Pool, owner: Owner, k: BlockKey, m: Meta, free: F.FreeLists,
                                        y: nat)
    requires SizeClasses.Sound(g) && Shaped(g, p.classes) && SlabInvariant.Sound(p, owner)
    requires Installable(p, owner, k, m, free)
    ensures var q := Installed(p, k, m, free, y);
      && SlabInvariant.Sound(q, owner[PlaceOf(m.ref) := k]) && Shaped(g, q.classes) && SameShape(p, q)
      && Seen(q) == Seen(p)[k := ViewOf(m)] && q.residents == p.residents[k := m]
      && (Lru(p) && m.access == p.activity ==> Lru(q))
  {
    InstallKeeps(p, owner, k, m, free, y);
    InstallShape(p, k, m, free, y);
    ShapeKept(g, p, Installed(p, k, m, free, y));
    if Lru(p) && m.access == p.activity { InstallLru(p, owner, k, m, free, y); }
  }

  lemma {:induction false} TickFacts(p: Pool, owner: Owner)
    requires SlabInvariant.Sound(p, owner)
    ensures SlabInvariant.Sound(Ticked(p), owner) && Seen(Ticked(p)) == Seen(p) && SameShape(p, Ticked(p))
      && (Lru(p) ==> Lru(Ticked(p)))
  {
    TickKeeps(p, owner);
  }

  // ------------------------------------------------------------ least recently used

  /** Nobody holds or protects anything. */
  predicate NothingHeld(p: Pool) {
    forall k :: k in p.residents ==> Free(p.residents[k])
  }

  /** Taking the global order from the front takes the least recently accessed first. */
  lemma {:induction false} FrontIsOldest(p: Pool, owner: Owner, n: nat, i: nat, k: BlockKey)
    requires SlabInvariant.Sound(p, owner) && Lru(p) && i < n <= |p.ring|
    requires k in p.ring[i..]
    ensures k in p.residents && p.ring[i] in p.residents && p.residents[p.ring[i]].access <= p.residents[k].access
  {
    assert KeyOk(p, owner, k) && KeyOk(p, owner, p.ring[i]);
    var j :| 0 <= j < |p.ring[i..]| && p.ring[i..][j] == k;
    assert p.ring[i + j] == k;
  }

  /** Rebuilt residents have not been accessed since the start. */
  predicate NeverRead(r: map<BlockKey, Meta>) {
    forall k :: k in r ==> r[k].access == 0
  }

  lemma {:induction false} NeverReadLru(p: Pool)
    requires NeverRead(p.residents)
    ensures Lru(p)
  {
  }

  // ------------------------------------------------------------ construction

  function BlankClass(g: Geometry, size: nat): Class {
    Class(size, if size > 0 then g.extentBytes / size else 0, F.FreeLists(map[], [], 0, 0), 0, 0, 0, 0, [])
  }

  /** Nothing is bound and nothing is resident. */
  predicate IsBlank(g: Geometry, p: Pool, sizes: seq<nat>) {
    && p == Pool(g.extentBytes, p.classes, p.extents, map[], [], |p.extents|, 0, 0, 0, 0)
    && |p.classes| == |sizes|
    && (forall c :: 0 <= c < |sizes| ==> p.classes[c] == BlankClass(g, sizes[c]))
    && (forall e :: 0 <= e < |p.extents| ==> p.extents[e] == BLANK)
  }

  lemma {:induction false} PerExtent(size: nat, extentBytes: nat)
    requires 0 < size <= extentBytes
    ensures extentBytes / size > 0 && (extentBytes / size) * size <= extentBytes
  {
    var q := extentBytes / size;
    assert extentBytes == q * size + extentBytes % size;
  }

  lemma {:induction false} AllUnbound(x: seq<Extent>, c: Option<nat>)
    requires forall e :: 0 <= e < |x| ==> x[e] == BLANK
    ensures Bound(x, c) == if c.None? then |x| else 0
  {
    if x != [] { AllUnbound(x[..|x| - 1], c); }
  }

  lemma {:induction false} BlankClassOk(g: Geometry, p: Pool, sizes: seq<nat>, c: nat)
    requires SizeClasses.Sound(g) && Lattice(g, sizes) && IsBlank(g, p, sizes)
    ensures ClassOk(p, c)
  {
    AllUnbound(p.extents, Some(c));
    if c < |sizes| {
      LatticeAligned(g, sizes, c);
      MaxAligned(g);
      PerExtent(sizes[c], g.extentBytes);
      EmptyLists(p.classes[c].free);
    }
  }

  lemma {:induction false} BlankShaped(g: Geometry, p: Pool, sizes: seq<nat>)
    requires SizeClasses.Sound(g) && Lattice(g, sizes) && IsBlank(g, p, sizes)
    ensures Shaped(g, p.classes)
  {
    assert Sizes(p.classes) == sizes;
    forall c | 0 <= c < |sizes| ensures sizes[c] > 0 { LatticeAligned(g, sizes, c); }
  }

  lemma {:induction false} BlankExtentOk(g: Geometry, p: Pool, sizes: seq<nat>, e: nat)
    requires IsBlank(g, p, sizes)
    ensures ExtentOk(p, e)
  {
  }

  lemma {:induction false} BlankCounters(g: Geometry, p: Pool, sizes: seq<nat>)
    requires IsBlank(g, p, sizes)
    ensures Counters(p) && Distinct(p.ring) && Lru(p) && Seen(p) == map[]
  {
    AllUnbound(p.extents, None);
    NoTotal(p.residents, Overall, Bytes);
    NoTotal(p.residents, Overall, ProtectedBytes);
    NoTotal(p.residents, Overall, Protected);
  }

  lemma {:induction false} NoTotal(m: map<BlockKey, Meta>, scope: Scope, st: Stat)
    requires m == map[]
    ensures Total(m, scope, st) == 0
  {
  }

  ghost predicate TablesOk(p: Pool, owner: Owner) {
    && (forall k :: KeyOk(p, owner, k)) && (forall at :: OwnerOk(p, owner, at))
      && (forall e, s :: SlotOk(p, owner, e, s))
    && (forall c, e :: FreeOk(p, c, e)) && (forall c, k :: MemberOk(p, c, k)) && (forall e, k :: ListedOk(p, e, k))
  }

  ghost predicate GroupsOk(p: Pool) {
    (forall e :: ExtentOk(p, e)) && (forall c :: ClassOk(p, c))
  }

  lemma {:induction false} BlankTables(g: Geometry, p: Pool, owner: Owner, sizes: seq<nat>)
    requires IsBlank(g, p, sizes) && owner == map[]
    ensures TablesOk(p, owner)
  {
  }

  lemma {:induction false} BlankGroups(g: Geometry, p: Pool, owner: Owner, sizes: seq<nat>)
    requires SizeClasses.Sound(g) && Lattice(g, sizes) && IsBlank(g, p, sizes) && owner == map[]
    ensures GroupsOk(p)
  {
    forall e: nat ensures ExtentOk(p, e) { BlankExtentOk(g, p, sizes, e); }
    forall c: nat ensures ClassOk(p, c) { BlankClassOk(g, p, sizes, c); }
  }

  lemma {:induction false} BlankSound(g: Geometry, p: Pool, owner: Owner, sizes: seq<nat>)
    requires SizeClasses.Sound(g) && Lattice(g, sizes) && IsBlank(g, p, sizes) && owner == map[]
    ensures SlabInvariant.Sound(p, owner)
  {
    BlankTables(g, p, owner, sizes);
    BlankGroups(g, p, owner, sizes);
    BlankCounters(g, p, sizes);
    Assembled(p, owner);
  }

  lemma {:induction false} Assembled(p: Pool, owner: Owner)
    requires TablesOk(p, owner) && GroupsOk(p) && Counters(p) && Distinct(p.ring)
    ensures SlabInvariant.Sound(p, owner)
  {
  }

  lemma {:induction false} EmptyLists(f: F.FreeLists)
    requires f == F.FreeLists(map[], [], 0, 0)
    ensures F.Good(f)
  {
    forall e ensures F.ExtentListed(f, e) { }
  }
}
