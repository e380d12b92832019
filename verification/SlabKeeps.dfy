/** The primitive changes of the allocator keep its invariant. */
module SlabKeeps {
  import opened Types
  import opened Sums
  import opened SweepOrder
  import opened SlabPool
  import opened SlabInvariant
  import F = FreeLists

  // ------------------------------------------------------------ a new resident

  /** `k` may be placed as `m` on a slot that is free in `p` and no longer listed in `free`. */
  ghost predicate Installable(p: Pool, owner: Owner, k: BlockKey, m: Meta, free: F.FreeLists) {
    && k !in p.residents && InPool(p, m.ref)
    && p.extents[m.ref.extent].cls == Some(m.ref.cls)
    && m.ref.slot < p.classes[m.ref.cls].perExtent
    && m.ref.size == p.classes[m.ref.cls].size
    && m.ref.offset == m.ref.slot * m.ref.size
    && (m.pending ==> m.refs > 0) && m.access <= p.activity
    && m.ref.extent in free.lists
    && F.Relisted(p.classes[m.ref.cls].free, free, m.ref.extent)
    && m.ref.slot in F.Of(p.classes[m.ref.cls].free, m.ref.extent)
    && |F.Of(free, m.ref.extent)| == |F.Of(p.classes[m.ref.cls].free, m.ref.extent)| - 1
    && (forall s ::
      s in F.Of(free, m.ref.extent) <==> s in F.Of(p.classes[m.ref.cls].free, m.ref.extent) && s != m.ref.slot)
  }

  lemma {:induction false} InstallKey(p: Pool, owner: Owner, k: BlockKey, m: Meta, free: F.FreeLists, y: nat,
                                      j: BlockKey)
    requires Installable(p, owner, k, m, free) && KeyOk(p, owner, j)
    requires PlaceOf(m.ref) !in owner
    ensures KeyOk(Installed(p, k, m, free, y), owner[PlaceOf(m.ref) := k], j)
  {
  }

  lemma {:induction false} InstallSlot(p: Pool, owner: Owner, k: BlockKey, m: Meta, free: F.FreeLists, y: nat, e: nat,
                                       s: nat)
    requires Installable(p, owner, k, m, free) && SlotOk(p, owner, e, s) && SlotOk(p, owner, m.ref.extent, m.ref.slot)
    ensures SlotOk(Installed(p, k, m, free, y), owner[PlaceOf(m.ref) := k], e, s)
  {
    var f, g := p.classes[m.ref.cls].free, free;
    assert e != m.ref.extent ==> (e in f.lists <==> e in f.lists - {m.ref.extent});
    assert e != m.ref.extent ==> (e in g.lists <==> e in g.lists - {m.ref.extent});
  }

  lemma {:induction false} InstallExtent(p: Pool, owner: Owner, k: BlockKey, m: Meta, free: F.FreeLists, y: nat, e: nat)
    requires Installable(p, owner, k, m, free) && ExtentOk(p, e) && ListedOk(p, e, k)
    ensures ExtentOk(Installed(p, k, m, free, y), e)
  {
    var q := Installed(p, k, m, free, y);
    var f, g := p.classes[m.ref.cls].free, free;
    assert e != m.ref.extent ==> (e in f.lists <==> e in f.lists - {m.ref.extent});
    assert e != m.ref.extent ==> (e in g.lists <==> e in g.lists - {m.ref.extent});
    assert q.residents - {k} == p.residents - {k};
    ExtentTotals(p.residents, q.residents, k, e);
  }

  lemma {:induction false} InstallClass(p: Pool, owner: Owner, k: BlockKey, m: Meta, free: F.FreeLists, y: nat, c: nat)
    requires Installable(p, owner, k, m, free) && ClassOk(p, c) && MemberOk(p, c, k)
    ensures ClassOk(Installed(p, k, m, free, y), c)
  {
    var q := Installed(p, k, m, free, y);
    assert q.residents - {k} == p.residents - {k};
    ClassTotals(p.residents, q.residents, k, c);
    BoundUpdate(p.extents, m.ref.extent, q.extents[m.ref.extent], Some(c));
  }

  lemma {:induction false} InstallRest(p: Pool, owner: Owner, k: BlockKey, m: Meta, free: F.FreeLists, y: nat)
    requires Installable(p, owner, k, m, free) && Counters(p) && Distinct(p.ring) && k !in p.ring
    ensures Counters(Installed(p, k, m, free, y)) && Distinct(Installed(p, k, m, free, y).ring)
  {
    var q := Installed(p, k, m, free, y);
    assert q.residents - {k} == p.residents - {k};
    TotalMoves(p.residents, q.residents, k, Overall, Bytes);
    TotalMoves(p.residents, q.residents, k, Overall, ProtectedBytes);
    TotalMoves(p.residents, q.residents, k, Overall, Protected);
    BoundUpdate(p.extents, m.ref.extent, q.extents[m.ref.extent], None);
  }

  lemma {:induction false} InstallKeeps(p: Pool, owner: Owner, k: BlockKey, m: Meta, free: F.FreeLists, y: nat)
    requires Sound(p, owner) && Installable(p, owner, k, m, free)
    ensures Sound(Installed(p, k, m, free, y), owner[PlaceOf(m.ref) := k])
  {
    var q, own := Installed(p, k, m, free, y), owner[PlaceOf(m.ref) := k];
    assert SlotOk(p, owner, m.ref.extent, m.ref.slot);
    assert KeyOk(p, owner, k);
    forall j ensures KeyOk(q, own, j) { InstallKey(p, owner, k, m, free, y, j); }
    forall at ensures OwnerOk(q, own, at) { assert OwnerOk(p, owner, at); }
    forall e: nat, s: nat
      ensures SlotOk(q, own, e, s) { assert SlotOk(p, owner, e, s); InstallSlot(p, owner, k, m, free, y, e, s); }
    forall e: nat
      ensures ExtentOk(q, e) { assert ExtentOk(p, e) && ListedOk(p, e, k); InstallExtent(p, owner, k, m, free, y, e); }
    forall c: nat
      ensures ClassOk(q, c) { assert ClassOk(p, c) && MemberOk(p, c, k); InstallClass(p, owner, k, m, free, y, c); }
    forall c: nat, e: nat ensures FreeOk(q, c, e) {
      assert FreeOk(p, c, e);
      assert e != m.ref.extent ==> (e in free.lists <==> e in free.lists - {m.ref.extent});
    }
    forall c: nat, j ensures MemberOk(q, c, j) { assert MemberOk(p, c, j); }
    forall e: nat, j ensures ListedOk(q, e, j) { assert ListedOk(p, e, j); }
    InstallRest(p, owner, k, m, free, y);
  }

  // ------------------------------------------------------------ a resident leaves

  /** The facts about the slot of a resident that the pieces below start from. */
  ghost predicate Leaves(p: Pool, owner: Owner, k: BlockKey) {
    && k in p.residents && KeyOk(p, owner, k)
    && F.Good(p.classes[p.residents[k].ref.cls].free)
    && p.residents[k].ref.extent in p.classes[p.residents[k].ref.cls].free.lists
    && p.residents[k].ref.slot !in F.Of(p.classes[p.residents[k].ref.cls].free, p.residents[k].ref.extent)
  }

  lemma {:induction false} LeavesFrom(p: Pool, owner: Owner, k: BlockKey)
    requires Sound(p, owner) && k in p.residents
    ensures Leaves(p, owner, k)
  {
    assert KeyOk(p, owner, k);
    var r := p.residents[k].ref;
    assert ClassOk(p, r.cls) && ExtentOk(p, r.extent) && SlotOk(p, owner, r.extent, r.slot);
  }

  lemma {:induction false} VacateKey(p: Pool, owner: Owner, k: BlockKey, j: BlockKey)
    requires Leaves(p, owner, k) && KeyOk(p, owner, j)
    ensures KeyOk(Vacated(p, k), owner - {PlaceOf(p.residents[k].ref)}, j)
  {
    WithoutMembers(p.ring, k, j);
  }

  lemma {:induction false} VacateSlot(p: Pool, owner: Owner, k: BlockKey, e: nat, s: nat)
    requires Leaves(p, owner, k) && SlotOk(p, owner, e, s)
    ensures SlotOk(Vacated(p, k), owner - {PlaceOf(p.residents[k].ref)}, e, s)
  {
    var r := p.residents[k].ref;
    F.PushFacts(p.classes[r.cls].free, r.extent, r.slot);
  }

  lemma {:induction false} VacateExtent(p: Pool, owner: Owner, k: BlockKey, e: nat)
    requires Leaves(p, owner, k) && ExtentOk(p, e) && ListedOk(p, e, k)
    ensures ExtentOk(Vacated(p, k), e)
  {
    var q := Vacated(p, k);
    assert q.residents - {k} == p.residents - {k};
    ExtentTotals(p.residents, q.residents, k, e);
    if e < |p.extents| { WithoutDistinct(p.extents[e].list, k); }
  }

  lemma {:induction false} VacateClass(p: Pool, owner: Owner, k: BlockKey, c: nat)
    requires Leaves(p, owner, k) && ClassOk(p, c) && MemberOk(p, c, k)
    ensures ClassOk(Vacated(p, k), c)
  {
    var q := Vacated(p, k);
    var r := p.residents[k].ref;
    F.PushFacts(p.classes[r.cls].free, r.extent, r.slot);
    assert q.residents - {k} == p.residents - {k};
    ClassTotals(p.residents, q.residents, k, c);
    BoundUpdate(p.extents, r.extent, q.extents[r.extent], Some(c));
    if c < |p.classes| { WithoutDistinct(p.classes[c].ring, k); }
  }

  lemma {:induction false} VacateRest(p: Pool, owner: Owner, k: BlockKey)
    requires Leaves(p, owner, k) && Counters(p) && Distinct(p.ring)
    ensures Counters(Vacated(p, k)) && Distinct(Vacated(p, k).ring)
  {
    var q := Vacated(p, k);
    var r := p.residents[k].ref;
    assert q.residents - {k} == p.residents - {k};
    TotalMoves(p.residents, q.residents, k, Overall, Bytes);
    TotalMoves(p.residents, q.residents, k, Overall, ProtectedBytes);
    TotalMoves(p.residents, q.residents, k, Overall, Protected);
    BoundUpdate(p.extents, r.extent, q.extents[r.extent], None);
    WithoutDistinct(p.ring, k);
  }

  lemma {:induction false} VacateKeeps(p: Pool, owner: Owner, k: BlockKey)
    requires Sound(p, owner) && k in p.residents
    ensures InPool(p, p.residents[k].ref)
    ensures Sound(Vacated(p, k), owner - {PlaceOf(p.residents[k].ref)})
  {
    LeavesFrom(p, owner, k);
    var q, own := Vacated(p, k), owner - {PlaceOf(p.residents[k].ref)};
    forall j ensures KeyOk(q, own, j) { assert KeyOk(p, owner, j); VacateKey(p, owner, k, j); }
    forall at ensures OwnerOk(q, own, at) { assert OwnerOk(p, owner, at); }
    forall e: nat, s: nat ensures SlotOk(q, own, e, s) { assert SlotOk(p, owner, e, s); VacateSlot(p, owner, k, e, s); }
    forall e: nat ensures ExtentOk(q, e) { assert ExtentOk(p, e) && ListedOk(p, e, k); VacateExtent(p, owner, k, e); }
    forall c: nat ensures ClassOk(q, c) { assert ClassOk(p, c) && MemberOk(p, c, k); VacateClass(p, owner, k, c); }
    forall c: nat, e: nat ensures FreeOk(q, c, e) { assert FreeOk(p, c, e); }
    forall c: nat, j ensures MemberOk(q, c, j) {
      assert MemberOk(p, c, j);
      if c < |p.classes| { WithoutMembers(p.classes[c].ring, k, j); }
    }
    forall e: nat, j ensures ListedOk(q, e, j) {
      assert ListedOk(p, e, j);
      if e < |p.extents| { WithoutMembers(p.extents[e].list, k, j); }
    }
    VacateRest(p, owner, k);
  }

  // ------------------------------------------------------------ metadata changes

  /** `n` is the same resident on the same slot. */
  predicate Revises(p: Pool, k: BlockKey, n: Meta) {
    && k in p.residents && InPool(p, p.residents[k].ref)
    && n.ref == p.residents[k].ref && n.useful == p.residents[k].useful
    && (n.pending ==> n.refs > 0) && n.access <= p.activity
  }

  lemma {:induction false} ReviseExtent(p: Pool, k: BlockKey, n: Meta, e: nat)
    requires Revises(p, k, n) && ExtentOk(p, e) && p.extents[n.ref.extent].cls.Some?
    ensures ExtentOk(Revised(p, k, n), e)
  {
    var q := Revised(p, k, n);
    assert q.residents - {k} == p.residents - {k};
    ExtentTotals(p.residents, q.residents, k, e);
  }

  lemma {:induction false} ReviseClass(p: Pool, k: BlockKey, n: Meta, c: nat)
    requires Revises(p, k, n) && ClassOk(p, c)
    ensures ClassOk(Revised(p, k, n), c)
  {
    var q := Revised(p, k, n);
    assert q.residents - {k} == p.residents - {k};
    ClassTotals(p.residents, q.residents, k, c);
    BoundUpdate(p.extents, n.ref.extent, q.extents[n.ref.extent], Some(c));
  }

  lemma {:induction false} ReviseCounters(p: Pool, k: BlockKey, n: Meta)
    requires Revises(p, k, n) && Counters(p)
    ensures Counters(Revised(p, k, n))
  {
    var q := Revised(p, k, n);
    assert q.residents - {k} == p.residents - {k};
    TotalMoves(p.residents, q.residents, k, Overall, Bytes);
    TotalMoves(p.residents, q.residents, k, Overall, ProtectedBytes);
    TotalMoves(p.residents, q.residents, k, Overall, Protected);
    BoundUpdate(p.extents, n.ref.extent, q.extents[n.ref.extent], None);
  }

  lemma {:induction false} ReviseKeeps(p: Pool, owner: Owner, k: BlockKey, n: Meta)
    requires Sound(p, owner) && Revises(p, k, n)
    ensures Sound(Revised(p, k, n), owner)
  {
    var q := Revised(p, k, n);
    assert KeyOk(p, owner, k);
    forall j ensures KeyOk(q, owner, j) { assert KeyOk(p, owner, j); }
    forall at ensures OwnerOk(q, owner, at) { assert OwnerOk(p, owner, at); }
    forall e: nat, s: nat ensures SlotOk(q, owner, e, s) { assert SlotOk(p, owner, e, s); }
    forall e: nat ensures ExtentOk(q, e) { assert ExtentOk(p, e); ReviseExtent(p, k, n, e); }
    forall c: nat ensures ClassOk(q, c) { assert ClassOk(p, c); ReviseClass(p, k, n, c); }
    forall c: nat, e: nat ensures FreeOk(q, c, e) { assert FreeOk(p, c, e); }
    forall c: nat, j ensures MemberOk(q, c, j) { assert MemberOk(p, c, j); }
    forall e: nat, j ensures ListedOk(q, e, j) { assert ListedOk(p, e, j); }
    ReviseCounters(p, k, n);
  }

  // ------------------------------------------------------------ extents change class

  /** The free lists of class `c` with every slot of extent `e` listed. */
  ghost predicate Carved(p: Pool, c: nat, e: nat, free: F.FreeLists) {
    && c < |p.classes| && e < |p.extents| && p.extents[e].cls.None?
    && e in free.lists && F.Relisted(p.classes[c].free, free, e)
    && |F.Of(free, e)| == p.classes[c].perExtent
    && (forall s: nat :: s in F.Of(free, e) <==> s < p.classes[c].perExtent)
  }

  lemma {:induction false} BindExtent(p: Pool, c: nat, e: nat, free: F.FreeLists, x: nat)
    requires Carved(p, c, e, free) && ExtentOk(p, x) && ExtentOk(p, e)
    ensures ExtentOk(BoundTo(p, c, e, free), x)
  {
    assert x != e ==> (x in free.lists <==> x in free.lists - {e});
    assert x != e ==> (x in p.classes[c].free.lists <==> x in p.classes[c].free.lists - {e});
  }

  lemma {:induction false} BindClass(p: Pool, c: nat, e: nat, free: F.FreeLists, x: nat)
    requires Carved(p, c, e, free) && ClassOk(p, x)
    ensures ClassOk(BoundTo(p, c, e, free), x)
  {
    BoundUpdate(p.extents, e, BoundTo(p, c, e, free).extents[e], Some(x));
  }

  lemma {:induction false} BindSlot(p: Pool, owner: Owner, c: nat, e: nat, free: F.FreeLists, x: nat, s: nat)
    requires Carved(p, c, e, free) && SlotOk(p, owner, x, s) && Place(e, s) !in owner
    ensures SlotOk(BoundTo(p, c, e, free), owner, x, s)
  {
    assert x != e ==> (x in free.lists <==> x in free.lists - {e});
    assert x != e ==> (x in p.classes[c].free.lists <==> x in p.classes[c].free.lists - {e});
  }

  lemma {:induction false} BindKeeps(p: Pool, owner: Owner, c: nat, e: nat, free: F.FreeLists)
    requires Sound(p, owner) && Carved(p, c, e, free)
    ensures Sound(BoundTo(p, c, e, free), owner)
  {
    var q := BoundTo(p, c, e, free);
    assert ExtentOk(p, e);
    forall j ensures KeyOk(q, owner, j) { assert KeyOk(p, owner, j); }
    forall at ensures OwnerOk(q, owner, at) { assert OwnerOk(p, owner, at); }
    forall x: nat, s: nat ensures SlotOk(q, owner, x, s) {
      assert SlotOk(p, owner, x, s) && OwnerOk(p, owner, Place(e, s));
      var k := if Place(e, s) in owner then owner[Place(e, s)] else BlockKey(0, 0, 0);
      assert KeyOk(p, owner, k);
      BindSlot(p, owner, c, e, free, x, s);
    }
    forall x: nat ensures ExtentOk(q, x) { assert ExtentOk(p, x); BindExtent(p, c, e, free, x); }
    forall x: nat ensures ClassOk(q, x) { assert ClassOk(p, x); BindClass(p, c, e, free, x); }
    forall x: nat, y: nat ensures FreeOk(q, x, y) {
      assert FreeOk(p, x, y);
      assert y != e ==> (y in free.lists <==> y in free.lists - {e});
    }
    forall x: nat, j ensures MemberOk(q, x, j) { assert MemberOk(p, x, j); }
    forall x: nat, j ensures ListedOk(q, x, j) { assert ListedOk(p, x, j); }
    BoundUpdate(p.extents, e, q.extents[e], None);
  }

  /** An extent without residents is bound to a class. */
  ghost predicate Emptied(p: Pool, e: nat) {
    && e < |p.extents| && p.extents[e].cls.Some? && p.extents[e].cls.value < |p.classes|
    && p.extents[e].list == []
  }

  lemma {:induction false} ReleaseExtent(p: Pool, owner: Owner, e: nat, x: nat)
    requires Sound(p, owner) && Emptied(p, e)
    ensures ExtentOk(Released(p, e), x)
  {
    var c := p.extents[e].cls.value;
    var f := p.classes[c].free;
    assert ExtentOk(p, x) && ExtentOk(p, e) && ClassOk(p, c);
    F.DropExtentFacts(f, e);
    assert x != e ==> (x in f.lists <==> x in f.lists - {e});
    assert x != e ==> (x in F.DropExtent(f, e).lists <==> x in F.DropExtent(f, e).lists - {e});
    if x == e { EmptyTotals(p, owner, e); }
  }

  /** No resident, nothing to count. */
  lemma {:induction false} EmptyTotals(p: Pool, owner: Owner, e: nat)
    requires Sound(p, owner) && e < |p.extents| && p.extents[e].list == []
    ensures forall st :: Total(p.residents, OfExtent(e), st) == 0
  {
    forall k | k in p.residents ensures p.residents[k].ref.extent != e { assert ListedOk(p, e, k); }
    forall st ensures Total(p.residents, OfExtent(e), st) == 0 { ZeroTotal(p.residents, e, st); }
  }

  lemma {:induction false} ZeroTotal(m: map<BlockKey, Meta>, e: nat, st: Stat)
    requires forall k :: k in m ==> m[k].ref.extent != e
    ensures Total(m, OfExtent(e), st) == 0
    decreases |m|
  {
    if m != map[] {
      var k :| k in m;
      SumRemove(m, k, Share(OfExtent(e), st));
      ZeroTotal(m - {k}, e, st);
    }
  }

  lemma {:induction false} ReleaseClass(p: Pool, owner: Owner, e: nat, x: nat)
    requires Sound(p, owner) && Emptied(p, e)
    ensures ClassOk(Released(p, e), x)
  {
    var c := p.extents[e].cls.value;
    assert ClassOk(p, x) && ClassOk(p, c);
    F.DropExtentFacts(p.classes[c].free, e);
    BoundUpdate(p.extents, e, BLANK, Some(x));
  }

  lemma {:induction false} ReleaseKeeps(p: Pool, owner: Owner, e: nat)
    requires Sound(p, owner) && Emptied(p, e)
    ensures Sound(Released(p, e), owner)
  {
    var c := p.extents[e].cls.value;
    var f, g := p.classes[c].free, F.DropExtent(p.classes[c].free, e);
    var q := Released(p, e);
    assert ClassOk(p, c);
    F.DropExtentFacts(f, e);
    forall j ensures KeyOk(q, owner, j) { assert KeyOk(p, owner, j) && ListedOk(p, e, j); }
    forall at ensures OwnerOk(q, owner, at) { assert OwnerOk(p, owner, at); }
    forall x: nat, s: nat ensures SlotOk(q, owner, x, s) {
      assert SlotOk(p, owner, x, s);
      assert x != e ==> (x in f.lists <==> x in f.lists - {e}) && (x in g.lists <==> x in g.lists - {e});
    }
    forall x: nat ensures ExtentOk(q, x) { ReleaseExtent(p, owner, e, x); }
    forall x: nat ensures ClassOk(q, x) { ReleaseClass(p, owner, e, x); }
    forall x: nat, y: nat ensures FreeOk(q, x, y) {
      assert FreeOk(p, x, y);
      assert y != e ==> (y in f.lists <==> y in f.lists - {e}) && (y in g.lists <==> y in g.lists - {e});
    }
    forall x: nat, j ensures MemberOk(q, x, j) { assert MemberOk(p, x, j); }
    forall x: nat, j ensures ListedOk(q, x, j) { assert ListedOk(p, x, j); }
    BoundUpdate(p.extents, e, BLANK, None);
  }

  // ------------------------------------------------------------ orders and hands

  /** Orders and read heat may change as long as the orders keep their members. */
  lemma {:induction false} ReorderKeeps(p: Pool, owner: Owner, c: nat, order: seq<BlockKey>, ring: seq<BlockKey>,
                                        e: nat, heat: nat, heatSeq: nat)
    requires Sound(p, owner) && c < |p.classes| && e < |p.extents| && p.extents[e].cls.Some?
    requires Distinct(ring) && Distinct(order) && |order| == |p.classes[c].ring|
    requires forall k :: (k in ring <==> k in p.ring) && (k in order <==> k in p.classes[c].ring)
    ensures Sound(Reordered(p, c, order, ring, e, heat, heatSeq), owner)
  {
    var q := Reordered(p, c, order, ring, e, heat, heatSeq);
    forall j ensures KeyOk(q, owner, j) { assert KeyOk(p, owner, j); }
    forall at ensures OwnerOk(q, owner, at) { assert OwnerOk(p, owner, at); }
    forall x: nat, s: nat ensures SlotOk(q, owner, x, s) { assert SlotOk(p, owner, x, s); }
    forall x: nat ensures ExtentOk(q, x) { assert ExtentOk(p, x); }
    forall x: nat ensures ClassOk(q, x) { assert ClassOk(p, x); BoundUpdate(p.extents, e, q.extents[e], Some(x)); }
    forall x: nat, y: nat ensures FreeOk(q, x, y) { assert FreeOk(p, x, y); }
    forall x: nat, j ensures MemberOk(q, x, j) { assert MemberOk(p, x, j); }
    forall x: nat, j ensures ListedOk(q, x, j) { assert ListedOk(p, x, j); }
    BoundUpdate(p.extents, e, q.extents[e], None);
  }

  lemma {:induction false} TickKeeps(p: Pool, owner: Owner)
    requires Sound(p, owner)
    ensures Sound(Ticked(p), owner)
  {
    var q := Ticked(p);
    forall j ensures KeyOk(q, owner, j) { assert KeyOk(p, owner, j); }
    forall at ensures OwnerOk(q, owner, at) { assert OwnerOk(p, owner, at); }
    forall x: nat, s: nat ensures SlotOk(q, owner, x, s) { assert SlotOk(p, owner, x, s); }
    forall x: nat ensures ExtentOk(q, x) { assert ExtentOk(p, x); }
    forall x: nat ensures ClassOk(q, x) { assert ClassOk(p, x); }
    forall x: nat, y: nat ensures FreeOk(q, x, y) { assert FreeOk(p, x, y); }
    forall x: nat, j ensures MemberOk(q, x, j) { assert MemberOk(p, x, j); }
    forall x: nat, j ensures ListedOk(q, x, j) { assert ListedOk(p, x, j); }
  }

  lemma {:induction false} RingKeeps(p: Pool, owner: Owner, order: seq<BlockKey>)
    requires Sound(p, owner) && Distinct(order) && forall k :: k in order <==> k in p.ring
    ensures Sound(p.(ring := order), owner)
  {
    var q := p.(ring := order);
    forall j ensures KeyOk(q, owner, j) { assert KeyOk(p, owner, j); }
    forall at ensures OwnerOk(q, owner, at) { assert OwnerOk(p, owner, at); }
    forall x: nat, s: nat ensures SlotOk(q, owner, x, s) { assert SlotOk(p, owner, x, s); }
    forall x: nat ensures ExtentOk(q, x) { assert ExtentOk(p, x); }
    forall x: nat ensures ClassOk(q, x) { assert ClassOk(p, x); }
    forall x: nat, y: nat ensures FreeOk(q, x, y) { assert FreeOk(p, x, y); }
    forall x: nat, j ensures MemberOk(q, x, j) { assert MemberOk(p, x, j); }
    forall x: nat, j ensures ListedOk(q, x, j) { assert ListedOk(p, x, j); }
  }

  /** `t` is `r` but for reference bits. */
  ghost predicate SameButBits(r: map<BlockKey, Meta>, t: map<BlockKey, Meta>) {
    && t.Keys == r.Keys
    && forall k :: k in r ==> t[k] == r[k].(referenced := t[k].referenced)
  }

  lemma {:induction false} BitsTotals(r: map<BlockKey, Meta>, t: map<BlockKey, Meta>, scope: Scope, st: Stat)
    requires SameButBits(r, t)
    ensures Total(t, scope, st) == Total(r, scope, st)
  {
    SumSame(r, t, Share(scope, st));
  }

  lemma {:induction false} SweepKeeps(p: Pool, owner: Owner, c: nat, order: seq<BlockKey>, t: map<BlockKey, Meta>)
    requires Sound(p, owner) && c < |p.classes| && SameButBits(p.residents, t)
    requires Distinct(order) && |order| == |p.classes[c].ring| && forall k :: k in order <==> k in p.classes[c].ring
    ensures Sound(Sweeping(p, c, order, t), owner) && Seen(Sweeping(p, c, order, t)) == Seen(p)
  {
    var q := Sweeping(p, c, order, t);
    forall j ensures KeyOk(q, owner, j) { assert KeyOk(p, owner, j); }
    forall at ensures OwnerOk(q, owner, at) { assert OwnerOk(p, owner, at); }
    forall x: nat, s: nat ensures SlotOk(q, owner, x, s) { assert SlotOk(p, owner, x, s); }
    forall x: nat
      ensures ExtentOk(q, x) { assert ExtentOk(p, x); forall st { BitsTotals(p.residents, t, OfExtent(x), st); } }
    forall x: nat
      ensures ClassOk(q, x) { assert ClassOk(p, x); forall st { BitsTotals(p.residents, t, OfClass(x), st); } }
    forall x: nat, y: nat ensures FreeOk(q, x, y) { assert FreeOk(p, x, y); }
    forall x: nat, j ensures MemberOk(q, x, j) { assert MemberOk(p, x, j); }
    forall x: nat, j ensures ListedOk(q, x, j) { assert ListedOk(p, x, j); }
    forall st { BitsTotals(p.residents, t, Overall, st); }
  }
}
