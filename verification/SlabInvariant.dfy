/** What every allocator operation keeps: each bound extent's slots are split exactly into
    free slots and residents, every list and ring holds exactly its residents, and every
    counter is what the residents imply. */
module SlabInvariant {
  import opened Types
  import opened Sums
  import opened SweepOrder
  import opened SlabPool
  import F = FreeLists

  /** `owner` names the resident of each occupied slot. */
  type Owner = map<Place, BlockKey>

  predicate KeyOk(p: Pool, owner: Owner, k: BlockKey) {
    && (k in p.ring <==> k in p.residents)
    && (k in p.residents ==>
          var m := p.residents[k];
          && InPool(p, m.ref)
          && p.extents[m.ref.extent].cls == Some(m.ref.cls)
          && m.ref.slot < p.classes[m.ref.cls].perExtent
          && m.ref.size == p.classes[m.ref.cls].size
          && m.ref.offset == m.ref.slot * m.ref.size
          && PlaceOf(m.ref) in owner && owner[PlaceOf(m.ref)] == k
          && (m.pending ==> m.refs > 0)
          && m.access <= p.activity)
  }

  predicate OwnerOk(p: Pool, owner: Owner, at: Place) {
    at in owner ==> owner[at] in p.residents && PlaceOf(p.residents[owner[at]].ref) == at
  }

  /** Every slot of a bound extent is free or occupied, never both, never neither. */
  predicate SlotOk(p: Pool, owner: Owner, e: nat, s: nat) {
    e < |p.extents| && p.extents[e].cls.Some? && p.extents[e].cls.value < |p.classes| ==>
      var c := p.classes[p.extents[e].cls.value];
      s in F.Of(c.free, e) <==> s < c.perExtent && Place(e, s) !in owner
  }

  ghost predicate ExtentSums(p: Pool, e: nat)
    requires e < |p.extents|
  {
    var x := p.extents[e];
    && x.count == Total(p.residents, OfExtent(e), Count)
    && x.pinned == Total(p.residents, OfExtent(e), Pinned)
    && x.access == Total(p.residents, OfExtent(e), Access)
    && x.useful == Total(p.residents, OfExtent(e), Useful)
    && x.protected == Total(p.residents, OfExtent(e), Protected)
  }

  ghost predicate ExtentOk(p: Pool, e: nat) {
    e < |p.extents| ==>
      var x := p.extents[e];
      && Distinct(x.list) && x.count == |x.list|
      && ExtentSums(p, e)
      && x.freeSlots + x.count == x.total
      && (x.cls.None? ==> x == BLANK)
      && (x.cls.Some? ==>
            && x.cls.value < |p.classes|
            && x.total == p.classes[x.cls.value].perExtent
            && e in p.classes[x.cls.value].free.lists
            && x.freeSlots == |F.Of(p.classes[x.cls.value].free, e)|)
  }

  ghost predicate ClassSums(p: Pool, c: nat)
    requires c < |p.classes|
  {
    var cls := p.classes[c];
    && cls.count == Total(p.residents, OfClass(c), Count)
    && cls.useful == Total(p.residents, OfClass(c), Useful)
    && cls.protected == Total(p.residents, OfClass(c), Protected)
  }

  ghost predicate ClassOk(p: Pool, c: nat) {
    c < |p.classes| ==>
      var cls := p.classes[c];
      && cls.size > 0 && cls.perExtent > 0 && cls.perExtent * cls.size <= p.extentBytes
      && F.Good(cls.free)
      && Distinct(cls.ring) && cls.count == |cls.ring|
      && ClassSums(p, c)
      && cls.bound == Bound(p.extents, Some(c))
  }

  predicate FreeOk(p: Pool, c: nat, e: nat) {
    c < |p.classes| && e in p.classes[c].free.lists ==> e < |p.extents| && p.extents[e].cls == Some(c)
  }

  predicate MemberOk(p: Pool, c: nat, k: BlockKey) {
    c < |p.classes| ==> (k in p.classes[c].ring <==> k in p.residents && p.residents[k].ref.cls == c)
  }

  predicate ListedOk(p: Pool, e: nat, k: BlockKey) {
    e < |p.extents| ==> (k in p.extents[e].list <==> k in p.residents && p.residents[k].ref.extent == e)
  }

  ghost predicate Counters(p: Pool) {
    && p.unbound == Bound(p.extents, None)
    && p.used == Total(p.residents, Overall, Bytes)
    && p.protectedBytes == Total(p.residents, Overall, ProtectedBytes)
    && p.protectedSlots == Total(p.residents, Overall, Protected)
  }

  ghost predicate Sound(p: Pool, owner: Owner) {
    && (forall k :: KeyOk(p, owner, k))
    && (forall at :: OwnerOk(p, owner, at))
    && (forall e, s :: SlotOk(p, owner, e, s))
    && (forall e :: ExtentOk(p, e))
    && (forall c :: ClassOk(p, c))
    && (forall c, e :: FreeOk(p, c, e))
    && (forall c, k :: MemberOk(p, c, k))
    && (forall e, k :: ListedOk(p, e, k))
    && Distinct(p.ring)
    && Counters(p)
  }

  // ------------------------------------------------------------ counters follow

  /** Residents that agree but for `k` have totals that differ by what `k` contributes. */
  lemma {:induction false} TotalMoves(m: map<BlockKey, Meta>, n: map<BlockKey, Meta>, k: BlockKey, scope: Scope,
                                      st: Stat)
    requires m - {k} == n - {k}
    ensures Total(n, scope, st) == Total(m, scope, st) - At(m, k, Share(scope, st)) + At(n, k, Share(scope, st))
  {
    SumApart(m, n, k, Share(scope, st));
  }

  lemma {:induction false} ExtentTotals(m: map<BlockKey, Meta>, n: map<BlockKey, Meta>, k: BlockKey, e: nat)
    requires m - {k} == n - {k}
    ensures forall st :: Total(n, OfExtent(e), st) ==
                         Total(m, OfExtent(e), st) - At(m, k, Share(OfExtent(e), st)) + At(n, k, Share(OfExtent(e), st))
  {
    forall st { TotalMoves(m, n, k, OfExtent(e), st); }
  }

  lemma {:induction false} ClassTotals(m: map<BlockKey, Meta>, n: map<BlockKey, Meta>, k: BlockKey, c: nat)
    requires m - {k} == n - {k}
    ensures forall st :: Total(n, OfClass(c), st) ==
                         Total(m, OfClass(c), st) - At(m, k, Share(OfClass(c), st)) + At(n, k, Share(OfClass(c), st))
  {
    forall st { TotalMoves(m, n, k, OfClass(c), st); }
  }

  lemma {:induction false} BoundUpdate(x: seq<Extent>, e: nat, y: Extent, c: Option<nat>)
    requires e < |x|
    ensures Bound(x[e := y], c) == Bound(x, c) - (if x[e].cls == c then 1 else 0) + (if y.cls == c then 1 else 0)
  {
    var n := |x| - 1;
    if e == n {
      assert x[e := y][..n] == x[..n];
    } else {
      assert x[e := y][..n] == x[..n][e := y];
      BoundUpdate(x[..n], e, y, c);
    }
  }
}
