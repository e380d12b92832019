/** Which extent a whole-extent steal takes: empty ones first, then the one whose residents
    were used longest ago on average, then the least read, then the least full. */
module StealOrder {
  import opened Types
  import opened SlabPool

  function Heat(x: Extent, now: nat): nat {
    DecayedHeat(x.heat, x.heatSeq, now)
  }

  /** Means are compared without division. */
  predicate StealsBefore(a: Extent, b: Extent, now: nat) {
    if (a.count == 0) != (b.count == 0) then a.count == 0
    else if a.access * b.count != b.access * a.count then a.access * b.count < b.access * a.count
    else if Heat(a, now) != Heat(b, now) then Heat(a, now) < Heat(b, now)
    else a.useful < b.useful
  }

  /** The order of cold steals: least read, then least full, then oldest insert. */
  predicate ColdBefore(a: Extent, b: Extent, now: nat) {
    || Heat(a, now) < Heat(b, now)
    || (Heat(a, now) == Heat(b, now) && a.useful < b.useful)
    || (Heat(a, now) == Heat(b, now) && a.useful == b.useful && a.youngest < b.youngest)
  }

  // ------------------------------------------------------------ both are orders

  lemma {:induction false} MulLess(x: int, y: int, n: int)
    requires n > 0
    ensures x < y <==> x * n < y * n
    ensures x <= y <==> x * n <= y * n
  {
    var d := y - x;
    assert y * n == x * n + d * n;
    if d > 0 { assert d * n > 0; }
    if d < 0 { assert d * n < 0; }
  }

  lemma {:induction false} Rearranged(x: int, y: int, z: int)
    ensures x * y * z == x * z * y
  {
    assert y * z == z * y;
    assert x * y * z == x * (y * z);
    assert x * z * y == x * (z * y);
  }

  /** Cross-multiplied means compare transitively. */
  lemma {:induction false} MeansTransitive(sa: int, na: int, sb: int, nb: int, sc: int, nc: int)
    requires na > 0 && nb > 0 && nc > 0
    requires sa * nb <= sb * na && sb * nc <= sc * nb
    ensures sa * nc <= sc * na
    ensures sa * nb < sb * na || sb * nc < sc * nb ==> sa * nc < sc * na
    ensures sa * nc == sc * na ==> sa * nb == sb * na && sb * nc == sc * nb
  {
    MulLess(sa * nb, sb * na, nc);
    MulLess(sb * nc, sc * nb, na);
    Rearranged(sa, nb, nc);
    Rearranged(sb, na, nc);
    Rearranged(sc, nb, na);
    MulLess(sa * nc, sc * na, nb);
  }

  lemma {:induction false} StealsTransitive(a: Extent, b: Extent, c: Extent, now: nat)
    requires a.count >= 0 && b.count >= 0 && c.count >= 0
    requires StealsBefore(a, b, now) && StealsBefore(b, c, now)
    ensures StealsBefore(a, c, now)
  {
    if a.count > 0 {
      MeansTransitive(a.access, a.count, b.access, b.count, c.access, c.count);
    }
  }

  /** The steal order is an order on the extents of a pool. */
  lemma {:induction false} StealsOrdered(p: Pool)
    requires forall e: nat :: e < |p.extents| ==> p.extents[e].count >= 0
    ensures Ordered(p.extents, (a: Extent, b: Extent) => StealsBefore(a, b, p.activity))
  {
    var before := (a: Extent, b: Extent) => StealsBefore(a, b, p.activity);
    var x := p.extents;
    forall i, j, k | 0 <= i < |x| && 0 <= j < |x| && 0 <= k < |x| && before(x[i], x[j]) && before(x[j], x[k])
      ensures before(x[i], x[k])
    {
      StealsTransitive(x[i], x[j], x[k], p.activity);
    }
  }

  function Mean(x: Extent): real
    requires x.count > 0
  {
    x.access as real / x.count as real
  }

  lemma {:induction false} MeansCross(sa: int, na: int, sb: int, nb: int)
    requires na > 0 && nb > 0
    ensures sa as real / na as real < sb as real / nb as real <==> sa * nb < sb * na
    ensures sa as real / na as real == sb as real / nb as real <==> sa * nb == sb * na
  {
    var a, b, x, y := sa as real, sb as real, na as real, nb as real;
    assert (sa * nb) as real == a * y && (sb * na) as real == b * x;
    assert a == (a / x) * x && b == (b / y) * y;
    assert a * y == (a / x) * x * y && b * x == (b / y) * y * x;
    RealLess(a / x, b / y, x * y);
  }

  lemma {:induction false} RealLess(p: real, q: real, n: real)
    requires n > 0.0
    ensures p < q <==> p * n < q * n
    ensures p == q <==> p * n == q * n
  {
    assert q * n == p * n + (q - p) * n;
    if q > p { assert (q - p) * n > 0.0; }
    if q < p { assert (q - p) * n < 0.0; }
  }

  /** What the steal order means: empty extents first, then the smaller mean of last uses, then
      the smaller read heat, then fewer useful bytes. */
  lemma {:induction false} StealsByMean(a: Extent, b: Extent, now: nat)
    requires a.count >= 0 && b.count >= 0
    ensures a.count == 0 < b.count ==> StealsBefore(a, b, now) && !StealsBefore(b, a, now)
    ensures a.count > 0 && b.count > 0 ==>
      (StealsBefore(a, b, now) <==>
        || Mean(a) < Mean(b)
        || (Mean(a) == Mean(b) && Heat(a, now) < Heat(b, now))
        || (Mean(a) == Mean(b) && Heat(a, now) == Heat(b, now) && a.useful < b.useful))
  {
    if a.count > 0 && b.count > 0 { MeansCross(a.access, a.count, b.access, b.count); }
  }

  /** Read heat halves every 64 operations, and is gone after 63 times 64. */
  lemma {:induction false} HeatHalves(heat: nat, heatSeq: nat, now: nat)
    requires heatSeq <= now
    ensures now < heatSeq + 64 ==> DecayedHeat(heat, heatSeq, now) == heat
    ensures DecayedHeat(heat, heatSeq, now + 64) ==
      if now >= heatSeq + 62 * 64 then 0 else DecayedHeat(heat, heatSeq, now) / 2
  {
    var n := (now - heatSeq) / 64;
    assert (now + 64 - heatSeq) / 64 == n + 1;
    HalvedLast(heat, n);
  }

  /** A read adds one full step of heat to what is left of it. */
  lemma {:induction false} ReadHeats(p: Pool, k: BlockKey)
    requires k in p.residents && InPool(p, p.residents[k].ref)
    ensures var q, e := Touched(p, k), p.residents[k].ref.extent;
      && e < |q.extents| && Heat(q.extents[e], q.activity) == Heat(p.extents[e], q.activity) + 1024
      && forall x :: 0 <= x < |p.extents| && x != e ==> x < |q.extents| && q.extents[x] == p.extents[x]
  {
  }

  lemma {:induction false} HalvedLast(heat: nat, n: nat)
    ensures Halved(heat, n + 1) == Halved(heat, n) / 2
  {
    if n > 0 { HalvedLast(heat / 2, n - 1); }
  }

  // ------------------------------------------------------------ picking

  /** No candidate is to be taken before `e`. */
  predicate Least(x: seq<Extent>, ok: nat -> bool, before: (Extent, Extent) -> bool, e: nat, n: nat)
    requires n <= |x|
  {
    e < n && ok(e) && forall y: nat :: y < n && ok(y) ==> !before(x[y], x[e])
  }

  ghost predicate Ordered(x: seq<Extent>, before: (Extent, Extent) -> bool) {
    forall i, j, k ::
      0 <= i < |x| && 0 <= j < |x| && 0 <= k < |x| && before(x[i], x[j]) && before(x[j], x[k]) ==> before(x[i], x[k])
  }

  /** One pass over the extents finds the first least candidate. */
  method PickExtent(x: seq<Extent>, ok: nat -> bool, before: (Extent, Extent) -> bool) returns (best: int)
    requires Ordered(x, before) && forall i :: 0 <= i < |x| ==> !before(x[i], x[i])
    ensures best < 0 <==> forall y: nat :: y < |x| ==> !ok(y)
    ensures best >= 0 ==> Least(x, ok, before, best, |x|)
  {
    best := -1;
    for e: nat := 0 to |x|
      invariant best < 0 ==> best == -1 && forall y: nat :: y < e ==> !ok(y)
      invariant best >= 0 ==> Least(x, ok, before, best, e)
    {
      if !ok(e) { continue; }
      if best < 0 || before(x[e], x[best]) {
        best := e;
      }
    }
  }

  // ------------------------------------------------------------ three searches

  /** Another class than `c` has this extent, and nobody holds or protects a resident of it. */
  predicate Takeable(x: Extent, c: nat, classes: nat) {
    x.cls.Some? && x.cls.value < classes && x.cls.value != c && x.pinned == 0 && x.protected == 0
  }

  /** May extent `e` be stolen for class `c` from a class with more than `least` extents? */
  predicate Stealable(p: Pool, c: nat, least: nat, e: nat)
    requires e < |p.extents|
  {
    && Takeable(p.extents[e], c, |p.classes|)
    && (least > 0 ==> p.classes[p.extents[e].cls.value].bound > least)
  }

  /** No extent that may be stolen comes before `e`. */
  ghost predicate Chosen(p: Pool, c: nat, least: nat, e: nat) {
    && e < |p.extents| && Stealable(p, c, least, e)
    && forall x: nat ::
      x < |p.extents| && Stealable(p, c, least, x) ==> !StealsBefore(p.extents[x], p.extents[e], p.activity)
  }

  ghost predicate AnyStealable(p: Pool, c: nat, least: nat) {
    exists e: nat :: e < |p.extents| && Stealable(p, c, least, e)
  }

  /** `list` is what a steal for class `c` evicts: the residents of the first extent in order. */
  ghost predicate StealsList(p: Pool, c: nat, least: nat, list: seq<BlockKey>) {
    exists e: nat :: Chosen(p, c, least, e) && list == p.extents[e].list
  }

  /** Without a floor only the extents and the clock decide. */
  lemma {:induction false} SameSteals(p: Pool, q: Pool, c: nat, list: seq<BlockKey>)
    requires q.extents == p.extents && q.activity == p.activity && |q.classes| == |p.classes|
    ensures StealsList(q, c, 0, list) <==> StealsList(p, c, 0, list)
    ensures AnyStealable(q, c, 0) <==> AnyStealable(p, c, 0)
  {
    forall e: nat ensures Chosen(q, c, 0, e) <==> Chosen(p, c, 0, e) { OneSteal(p, q, c, e); OneSteal(q, p, c, e); }
    forall e: nat | e < |p.extents| ensures Stealable(q, c, 0, e) <==> Stealable(p, c, 0, e) { }
  }

  lemma {:induction false} OneSteal(p: Pool, q: Pool, c: nat, e: nat)
    requires q.extents == p.extents && q.activity == p.activity && |q.classes| == |p.classes|
    ensures Chosen(p, c, 0, e) ==> Chosen(q, c, 0, e)
  {
    if Chosen(p, c, 0, e) {
      forall x: nat | x < |q.extents| && Stealable(q, c, 0, x)
        ensures !StealsBefore(q.extents[x], q.extents[e], q.activity) { assert Stealable(p, c, 0, x); }
    }
  }

  /** The extent to steal for class `c`. */
  method PickStealable(p: Pool, c: nat, least: nat) returns (best: Option<nat>)
    requires forall e: nat :: e < |p.extents| ==> p.extents[e].count >= 0
    ensures best.None? <==> forall e: nat :: e < |p.extents| ==> !Stealable(p, c, least, e)
    ensures best.Some? ==> Chosen(p, c, least, best.value)
  {
    var ok := (e: nat) => e < |p.extents| && Stealable(p, c, least, e);
    var before := (a: Extent, b: Extent) => StealsBefore(a, b, p.activity);
    StealsOrdered(p);
    var i := PickExtent(p.extents, ok, before);
    forall e: nat | e < |p.extents| && Stealable(p, c, least, e) ensures ok(e) { }
    if i < 0 { return None; }
    forall x: nat | x < |p.extents| && Stealable(p, c, least, x)
      ensures !StealsBefore(p.extents[x], p.extents[i], p.activity) {
      assert ok(x) && !before(p.extents[x], p.extents[i]);
    }
    assert ok(i);
    return Some(i);
  }

  /** Nothing was inserted into extent `e` since `limit`, and it can be stolen for class `c`. */
  predicate Cold(p: Pool, c: nat, limit: nat, e: nat)
    requires e < |p.extents|
  {
    Stealable(p, c, 0, e) && p.extents[e].count != 0 && p.extents[e].youngest < limit
  }

  /** No cold extent comes before `e`. */
  ghost predicate ColdChosen(p: Pool, c: nat, limit: nat, e: nat) {
    && e < |p.extents| && Cold(p, c, limit, e)
    && forall x: nat :: x < |p.extents| && Cold(p, c, limit, x) ==> !ColdBefore(p.extents[x], p.extents[e], p.activity)
  }

  ghost predicate AnyCold(p: Pool, c: nat, limit: nat) {
    exists e: nat :: e < |p.extents| && Cold(p, c, limit, e)
  }

  /** `list` is what a cold steal for class `c` evicts. */
  ghost predicate StealsColdList(p: Pool, c: nat, limit: nat, list: seq<BlockKey>) {
    exists e: nat :: ColdChosen(p, c, limit, e) && list == p.extents[e].list
  }

  /** The cold extent to steal for class `c`. */
  method PickCold(p: Pool, c: nat, limit: nat) returns (best: Option<nat>)
    ensures best.None? <==> forall e: nat :: e < |p.extents| ==> !Cold(p, c, limit, e)
    ensures best.Some? ==> ColdChosen(p, c, limit, best.value)
  {
    var ok := (e: nat) => e < |p.extents| && Cold(p, c, limit, e);
    var before := (a: Extent, b: Extent) => ColdBefore(a, b, p.activity);
    var i := PickExtent(p.extents, ok, before);
    forall e: nat | e < |p.extents| && Cold(p, c, limit, e) ensures ok(e) { }
    if i < 0 { return None; }
    forall x: nat | x < |p.extents| && Cold(p, c, limit, x)
      ensures !ColdBefore(p.extents[x], p.extents[i], p.activity) {
      assert ok(x) && !before(p.extents[x], p.extents[i]);
    }
    assert ok(i);
    return Some(i);
  }

  /** An extent of class `donor` that nobody holds or protects a resident of. */
  predicate Movable(p: Pool, donor: nat, e: nat) {
    e < |p.extents| && p.extents[e].cls == Some(donor) && p.extents[e].pinned == 0 && p.extents[e].protected == 0
  }

  /** No movable extent of the donor comes before `e`. */
  ghost predicate MoveChosen(p: Pool, donor: nat, e: nat) {
    && Movable(p, donor, e) && e < |p.extents|
    && forall x: nat ::
      x < |p.extents| && Movable(p, donor, x) ==> !StealsBefore(p.extents[x], p.extents[e], p.activity)
  }

  /** The extent to move away from class `donor`. */
  method PickMovable(p: Pool, donor: nat) returns (best: Option<nat>)
    requires forall e: nat :: e < |p.extents| ==> p.extents[e].count >= 0
    ensures best.None? <==> forall e: nat :: !Movable(p, donor, e)
    ensures best.Some? ==> MoveChosen(p, donor, best.value)
  {
    var ok := (e: nat) => Movable(p, donor, e);
    var before := (a: Extent, b: Extent) => StealsBefore(a, b, p.activity);
    StealsOrdered(p);
    var i := PickExtent(p.extents, ok, before);
    forall e: nat | Movable(p, donor, e) ensures ok(e) { }
    if i < 0 { return None; }
    forall x: nat | x < |p.extents| && Movable(p, donor, x)
      ensures !StealsBefore(p.extents[x], p.extents[i], p.activity) {
      assert ok(x) && !before(p.extents[x], p.extents[i]);
    }
    assert ok(i);
    return Some(i);
  }
}
