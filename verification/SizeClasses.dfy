/** The fixed lattice of slot sizes. The waste bound is a rational number `wasteNum/wasteDen`.
    The source divides by one minus the bound in floating point; here that division is any
    function, so what is proved holds however it rounds. */
module SizeClasses {

  const UINT32_MAX: nat := 0xFFFF_FFFF

  /** `wasteNum/wasteDen` is the configured bound after clamping, always below one, and
      `quotient` the whole part of a length divided by one minus the bound, as computed. */
  datatype Geometry = Geometry(extentBytes: nat, align: nat, wasteNum: nat, wasteDen: nat, quotient: nat -> nat)

  predicate Sound(g: Geometry) {
    g.align > 0 && g.wasteNum < g.wasteDen
  }

  /** Options as configured: no alignment means 1, a negative bound means none, and the bound
      never exceeds 0.999999. */
  function Configured(extentBytes: nat, align: nat, wasteNum: int, wasteDen: nat, divide: (nat, nat, nat) -> nat)
    : (g: Geometry)
    requires wasteDen > 0
    ensures Sound(g)
  {
    var n: nat := if wasteNum < 0 then 0 else wasteNum;
    var a := if align == 0 then 1 else align;
    if n * 1000000 > 999999 * wasteDen then Geometry(extentBytes, a, 999999, 1000000, m => divide(m, 999999, 1000000))
    else Geometry(extentBytes, a, n, wasteDen, m => divide(m, n, wasteDen))
  }

  predicate Aligned(g: Geometry, x: nat)
    requires Sound(g)
  {
    Floor(x, g.align) == x
  }

  function Floor(x: nat, a: nat): nat
    requires a > 0
  {
    (x / a) * a
  }

  /** The largest slot size: aligned, within an extent and within 32 bits. */
  function MaxSize(g: Geometry): nat
    requires Sound(g)
  {
    var e, u := Floor(g.extentBytes, g.align), Floor(UINT32_MAX, g.align);
    if e < u then e else u
  }

  /** The widest size that a value of `minimum` bytes may use within the waste bound. */
  function Widest(g: Geometry, minimum: nat): nat
    requires Sound(g)
  {
    minimum * g.wasteDen / (g.wasteDen - g.wasteNum)
  }

  /** The computed quotient is never more than `slack` above the exact one. */
  ghost predicate Rounds(g: Geometry, slack: nat)
    requires Sound(g)
  {
    forall m: nat :: g.quotient(m) <= Widest(g, m) + slack
  }

  function Clamp(minimum: nat, widest: nat, most: nat): nat {
    var candidate := if widest > minimum then widest else minimum;
    if candidate > most then most else candidate
  }

  /** The size after `current`: the largest aligned size that the smallest length not served
      by `current` may still use within the waste bound. */
  function NextSize(g: Geometry, current: nat): nat
    requires Sound(g)
  {
    var minimum := current + g.align;
    Clamp(minimum, if g.wasteNum > 0 then Floor(g.quotient(minimum), g.align) else 0, MaxSize(g))
  }

  /** A slot of `size` bytes wastes at most the bound on a value of `len` bytes: the unused
      part is at most `wasteNum/wasteDen` of the slot. */
  predicate Fits(g: Geometry, size: nat, len: nat)
    requires Sound(g)
  {
    size * (g.wasteDen - g.wasteNum) <= len * g.wasteDen
  }

  // ------------------------------------------------------------ arithmetic

  lemma {:induction false} MulGap(p: nat, q: nat, a: nat)
    requires p < q
    ensures p * a + a <= q * a
  {
    var d: nat := q - p - 1;
    assert q * a == p * a + a + d * a by { assert q == p + 1 + d; }
  }

  lemma {:induction false} DivMultiple(q: nat, a: nat)
    requires a > 0
    ensures (q * a) / a == q
  {
    var x := q * a;
    var d := x / a;
    assert x == d * a + x % a;
    if q < d { MulGap(q, d, a); }
    if d < q { MulGap(d, q, a); }
  }

  lemma {:induction false} FlooredDivides(x: nat, a: nat)
    requires a > 0 && Floor(x, a) == x
    ensures x % a == 0
  {
    assert x == (x / a) * a + x % a;
  }

  lemma {:induction false} FloorFacts(x: nat, a: nat)
    requires a > 0
    ensures Floor(x, a) <= x < Floor(x, a) + a && Floor(Floor(x, a), a) == Floor(x, a)
  {
    var q := x / a;
    assert x == q * a + x % a;
    DivMultiple(q, a);
  }

  lemma {:induction false} FloorNext(x: nat, a: nat)
    requires a > 0 && Floor(x, a) == x
    ensures Floor(x + a, a) == x + a
  {
    var q := x / a;
    DivMultiple(q + 1, a);
    assert (q + 1) * a == q * a + a;
  }

  /** Aligned numbers that differ, differ by at least the alignment. */
  lemma {:induction false} AlignedGap(x: nat, y: nat, a: nat)
    requires a > 0 && Floor(x, a) == x && Floor(y, a) == y && x < y
    ensures x + a <= y
  {
    var p, q := x / a, y / a;
    if p < q { MulGap(p, q, a); }
    if q < p { MulGap(q, p, a); }
  }

  lemma {:induction false} MaxAligned(g: Geometry)
    requires Sound(g)
    ensures Aligned(g, MaxSize(g)) && MaxSize(g) <= g.extentBytes && MaxSize(g) <= UINT32_MAX
  {
    FloorFacts(g.extentBytes, g.align);
    FloorFacts(UINT32_MAX, g.align);
  }

  lemma {:induction false} MulMono(x: nat, y: nat, a: nat)
    requires x <= y
    ensures x * a <= y * a
  {
    if x < y { MulGap(x, y, a); }
  }

  /** A size no larger than the raw quotient keeps within the waste bound. */
  lemma {:induction false} WithinBound(g: Geometry, size: nat, len: nat)
    requires Sound(g) && (size <= len || size <= Widest(g, len))
    ensures Fits(g, size, len)
  {
    var free := g.wasteDen - g.wasteNum;
    var raw := Widest(g, len);
    assert len * g.wasteDen == raw * free + (len * g.wasteDen) % free;
    if size <= len {
      MulMono(size, len, free);
      MulMono(free, g.wasteDen, len);
    } else {
      MulMono(size, raw, free);
    }
  }

  lemma {:induction false} FitsMore(g: Geometry, size: nat, len: nat, more: nat)
    requires Sound(g) && Fits(g, size, len) && len <= more
    ensures Fits(g, size, more)
  {
    MulMono(len, more, g.wasteDen);
  }

  /** A step up the lattice: aligned, strictly larger and within the waste bound. */
  lemma {:induction false} NextFacts(g: Geometry, current: nat)
    requires Sound(g) && Aligned(g, current) && current < MaxSize(g)
    ensures var next := NextSize(g, current);
      Aligned(g, next) && current + g.align <= next <= MaxSize(g)
        && (next <= current + g.align || next <= g.quotient(current + g.align))
        && (g.wasteNum == 0 ==> next == current + g.align)
  {
    MaxAligned(g);
    AlignedGap(current, MaxSize(g), g.align);
    FloorNext(current, g.align);
    FloorFacts(g.quotient(current + g.align), g.align);
  }

  /** It is the largest such step: an aligned size beyond it is too wide for the smallest length
      that `current` does not serve. */
  lemma {:induction false} NextIsWidest(g: Geometry, current: nat, size: nat)
    requires Sound(g) && Aligned(g, current) && current < MaxSize(g) && g.wasteNum > 0
    requires Aligned(g, size) && NextSize(g, current) < size <= MaxSize(g)
    ensures size > g.quotient(current + g.align)
  {
    var q := g.quotient(current + g.align);
    FloorFacts(q, g.align);
    if Floor(q, g.align) < size { AlignedGap(Floor(q, g.align), size, g.align); }
  }

  // ------------------------------------------------------------ the lattice

  function Climb(g: Geometry, current: nat, len: nat): nat
    requires Sound(g)
    decreases len - current
  {
    if current >= len then current
    else if NextSize(g, current) <= current then len
    else Climb(g, NextSize(g, current), len)
  }

  /** The slot size of a value of `len` bytes; a length beyond the lattice is returned as is. */
  function Canonical(g: Geometry, len: nat): nat
    requires Sound(g)
  {
    Climb(g, g.align, len)
  }

  method CanonicalSlotSize(g: Geometry, len: nat) returns (size: nat)
    requires Sound(g)
    ensures size == Canonical(g, len)
  {
    var current := g.align;
    while current < len
      invariant Climb(g, current, len) == Canonical(g, len)
      decreases len - current
    {
      var candidate := NextSize(g, current);
      if candidate <= current { return len; }
      current := candidate;
    }
    return current;
  }

  /** The class sizes: from the alignment to the largest size, each the next of the one before. */
  predicate Lattice(g: Geometry, sizes: seq<nat>)
    requires Sound(g)
  {
    if MaxSize(g) < g.align then sizes == []
    else
      && sizes != [] && sizes[0] == g.align && sizes[|sizes| - 1] == MaxSize(g)
      && forall i :: 0 <= i < |sizes| - 1 ==> sizes[i] < MaxSize(g) && sizes[i + 1] == NextSize(g, sizes[i])
  }

  lemma {:induction false} LatticeAligned(g: Geometry, sizes: seq<nat>, i: nat)
    requires Sound(g) && Lattice(g, sizes) && i < |sizes|
    ensures Aligned(g, sizes[i]) && g.align <= sizes[i] <= MaxSize(g)
  {
    if i == 0 {
      DivMultiple(1, g.align);
    } else {
      LatticeAligned(g, sizes, i - 1);
      NextFacts(g, sizes[i - 1]);
    }
  }

  lemma {:induction false} LatticeAscends(g: Geometry, sizes: seq<nat>, i: nat, j: nat)
    requires Sound(g) && Lattice(g, sizes) && i < j < |sizes|
    ensures sizes[i] < sizes[j]
    decreases j
  {
    LatticeAligned(g, sizes, j - 1);
    NextFacts(g, sizes[j - 1]);
    if i < j - 1 { LatticeAscends(g, sizes, i, j - 1); }
  }

  /** Climbing one past a class gives the next class: what the constructor relies on. */
  lemma {:induction false} OnePastIsNext(g: Geometry, sizes: seq<nat>, from: nat, i: nat)
    requires Sound(g) && from <= i < |sizes| && sizes[i] < MaxSize(g)
    requires forall k :: 0 <= k < |sizes| ==> Aligned(g, sizes[k]) && sizes[k] <= sizes[i]
    requires forall k :: 0 <= k < i ==> sizes[k] < MaxSize(g) && sizes[k + 1] == NextSize(g, sizes[k])
    ensures Climb(g, sizes[from], sizes[i] + g.align) == NextSize(g, sizes[i])
    decreases i - from
  {
    NextFacts(g, sizes[from]);
    if from < i { OnePastIsNext(g, sizes, from + 1, i); }
  }

  /** `sizes` is the lattice below `size`, which comes next. */
  ghost predicate Below(g: Geometry, sizes: seq<nat>, size: nat)
    requires Sound(g)
  {
    && Aligned(g, size) && g.align <= size
    && (sizes == [] ==> size == g.align)
    && (sizes != [] ==> sizes[0] == g.align && size == NextSize(g, sizes[|sizes| - 1]) && size <= MaxSize(g))
    && (forall k :: 0 <= k < |sizes| ==> Aligned(g, sizes[k]) && sizes[k] < size && sizes[k] < MaxSize(g))
    && (forall k :: 0 <= k < |sizes| - 1 ==> sizes[k + 1] == NextSize(g, sizes[k]))
  }

  lemma {:induction false} BelowNext(g: Geometry, sizes: seq<nat>, size: nat)
    requires Sound(g) && Below(g, sizes, size) && size < MaxSize(g)
    ensures Canonical(g, size + g.align) == NextSize(g, size) > size
    ensures Below(g, sizes + [size], NextSize(g, size))
  {
    NextFacts(g, size);
    var t := sizes + [size];
    assert forall k :: 0 <= k < |sizes| ==> t[k] == sizes[k];
    OnePastIsNext(g, t, 0, |sizes|);
  }

  method BuildClasses(g: Geometry) returns (sizes: seq<nat>)
    requires Sound(g)
    ensures Lattice(g, sizes)
  {
    sizes := [];
    MaxAligned(g);
    DivMultiple(1, g.align);
    var size := g.align;
    while size <= MaxSize(g)
      invariant Below(g, sizes, size)
      decreases MaxSize(g) - size
    {
      if size == MaxSize(g) { return sizes + [size]; }
      BelowNext(g, sizes, size);
      sizes := sizes + [size];
      var next := CanonicalSlotSize(g, size + g.align);
      if next <= size { break; }
      size := next;
    }
  }

  method ClassForExactSize(sizes: seq<nat>, size: nat) returns (i: nat)
    ensures i <= |sizes| && (i < |sizes| ==> sizes[i] == size) && size !in sizes[..i]
  {
    i := 0;
    while i < |sizes|
      invariant i <= |sizes| && size !in sizes[..i]
    {
      if sizes[i] == size { return; }
      i := i + 1;
    }
  }

  lemma {:induction false} ClimbFinds(g: Geometry, sizes: seq<nat>, from: nat, len: nat) returns (i: nat)
    requires Sound(g) && Lattice(g, sizes) && from < |sizes| && 0 < len <= MaxSize(g)
    requires from == 0 || sizes[from - 1] < len
    ensures i < |sizes| && Climb(g, sizes[from], len) == sizes[i]
    ensures len <= sizes[i] && (i == 0 || sizes[i - 1] < len)
    decreases |sizes| - from
  {
    LatticeAligned(g, sizes, from);
    if sizes[from] >= len {
      i := from;
    } else {
      assert from < |sizes| - 1;
      NextFacts(g, sizes[from]);
      i := ClimbFinds(g, sizes, from + 1, len);
    }
  }

  /** The canonical size of a length is the smallest class that holds it. */
  lemma {:induction false} CanonicalIsSmallestClass(g: Geometry, sizes: seq<nat>, len: nat) returns (i: nat)
    requires Sound(g) && Lattice(g, sizes) && 0 < len <= MaxSize(g) && g.align <= MaxSize(g)
    ensures i < |sizes| && Canonical(g, len) == sizes[i] && len <= sizes[i]
    ensures forall k :: 0 <= k < i ==> sizes[k] < len
  {
    i := ClimbFinds(g, sizes, 0, len);
    forall k | 0 <= k < i ensures sizes[k] < len {
      if k < i - 1 { LatticeAscends(g, sizes, k, i - 1); }
    }
  }

  /** It is aligned, holds the length and fits an extent. Up to how far the division rounds up it
      wastes at most the bound. */
  lemma {:induction false} CanonicalHolds(g: Geometry, sizes: seq<nat>, len: nat, slack: nat)
    requires Sound(g) && Lattice(g, sizes) && Aligned(g, len) && 0 < len <= MaxSize(g)
    ensures var size := Canonical(g, len);
      && Aligned(g, size) && len <= size <= g.extentBytes && size <= UINT32_MAX
      && (Rounds(g, slack) ==> size <= slack || Fits(g, size - slack, len))
  {
    MaxAligned(g);
    DivMultiple(1, g.align);
    assert Floor(0, g.align) == 0;
    AlignedGap(0, len, g.align);
    var i := CanonicalIsSmallestClass(g, sizes, len);
    LatticeAligned(g, sizes, i);
    if Rounds(g, slack) && slack < sizes[i] {
      if i == 0 {
        WithinBound(g, sizes[i] - slack, len);
      } else {
        LatticeAligned(g, sizes, i - 1);
        NextFacts(g, sizes[i - 1]);
        AlignedGap(sizes[i - 1], len, g.align);
        WithinBound(g, sizes[i] - slack, sizes[i - 1] + g.align);
        FitsMore(g, sizes[i] - slack, sizes[i - 1] + g.align, len);
      }
    }
  }

  /** Longer values never get smaller slots. */
  lemma {:induction false} CanonicalMonotone(g: Geometry, sizes: seq<nat>, x: nat, y: nat)
    requires Sound(g) && Lattice(g, sizes) && 0 < x <= y <= MaxSize(g) && g.align <= MaxSize(g)
    ensures Canonical(g, x) <= Canonical(g, y)
  {
    var i := CanonicalIsSmallestClass(g, sizes, x);
    var j := CanonicalIsSmallestClass(g, sizes, y);
    if i < j { LatticeAscends(g, sizes, i, j); }
  }

  /** The fixed points are exactly the classes, so a size written for a value is accepted
      when the value is restored. */
  lemma {:induction false} FixedPointsAreClasses(g: Geometry, sizes: seq<nat>, size: nat)
    requires Sound(g) && Lattice(g, sizes) && 0 < size
    ensures size in sizes <==> Canonical(g, size) == size && g.align <= size <= MaxSize(g)
  {
    if i :| 0 <= i < |sizes| && sizes[i] == size {
      LatticeAligned(g, sizes, i);
      var j := CanonicalIsSmallestClass(g, sizes, size);
      if j < i { LatticeAscends(g, sizes, j, i); }
    }
    if Canonical(g, size) == size && g.align <= size <= MaxSize(g) {
      var j := CanonicalIsSmallestClass(g, sizes, size);
    }
  }

  lemma {:induction false} CanonicalIdempotent(g: Geometry, sizes: seq<nat>, len: nat)
    requires Sound(g) && Lattice(g, sizes) && 0 < len <= MaxSize(g) && g.align <= MaxSize(g)
    ensures Canonical(g, Canonical(g, len)) == Canonical(g, len) && Canonical(g, len) in sizes
  {
    var i := CanonicalIsSmallestClass(g, sizes, len);
    FixedPointsAreClasses(g, sizes, sizes[i]);
  }

  /** A length beyond the largest class has none. */
  lemma {:induction false} TooLongHasNoClass(g: Geometry, sizes: seq<nat>, from: nat, len: nat)
    requires Sound(g) && Lattice(g, sizes) && from < |sizes| && MaxSize(g) < len
    ensures Climb(g, sizes[from], len) == len && len !in sizes
    decreases |sizes| - from
  {
    LatticeAligned(g, sizes, from);
    forall i | 0 <= i < |sizes| ensures sizes[i] != len { LatticeAligned(g, sizes, i); }
    if from < |sizes| - 1 {
      NextFacts(g, sizes[from]);
      TooLongHasNoClass(g, sizes, from + 1, len);
    }
  }

  function AlignUp(x: nat, a: nat): nat
    requires a > 0
  {
    Floor(x + a - 1, a)
  }

  lemma {:induction false} AlignUpHolds(x: nat, a: nat)
    requires a > 0
    ensures x <= AlignUp(x, a) < x + a && Floor(AlignUp(x, a), a) == AlignUp(x, a)
  {
    FloorFacts(x + a - 1, a);
  }

  /** The class of a value of `len` aligned bytes, or the number of classes if it has none. */
  method ClassForLen(g: Geometry, sizes: seq<nat>, len: nat) returns (c: nat)
    requires Sound(g) && Lattice(g, sizes) && 0 < len
    ensures c <= |sizes| && (c < |sizes| <==> len <= MaxSize(g) && g.align <= MaxSize(g))
    ensures c < |sizes| ==> len <= sizes[c] && sizes[c] == Canonical(g, len)
  {
    var size := CanonicalSlotSize(g, len);
    c := ClassForExactSize(sizes, size);
    if g.align <= MaxSize(g) {
      if len <= MaxSize(g) {
        var i := CanonicalIsSmallestClass(g, sizes, len);
        assert sizes[i] == size && sizes[..|sizes|] == sizes;
      } else {
        TooLongHasNoClass(g, sizes, 0, len);
      }
    }
  }
}
