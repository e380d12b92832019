/** The allocator's bookkeeping as a value: residents, size classes with their free lists
    and sweep orders, extents with their resident lists, and every running counter. The
    functions are the allocator's primitive changes. */
module SlabPool {
  import opened Types
  import opened Lifecycle
  import opened Sums
  import opened SweepOrder
  import F = FreeLists

  /** Extents with free slots a class keeps for parallel writers. */
  const STRIPE_WAYS: nat := 8

  datatype Meta = Meta(
    ref: SlotRef, useful: nat, access: nat, refs: nat,
    referenced: bool, pending: bool, until: nat, ttl: nat)

  datatype Class = Class(
    size: nat, perExtent: nat, free: F.FreeLists,
    count: int, bound: int, useful: int, protected: int,
    ring: seq<BlockKey>)

  datatype Extent = Extent(
    cls: Option<nat>, freeSlots: int, total: nat,
    count: int, pinned: int, access: int, useful: int, protected: int,
    youngest: nat, heat: nat, heatSeq: nat,
    list: seq<BlockKey>)

  const BLANK := Extent(None, 0, 0, 0, 0, 0, 0, 0, 0, 0, 0, [])

  datatype Pool = Pool(
    extentBytes: nat,
    classes: seq<Class>,
    extents: seq<Extent>,
    residents: map<BlockKey, Meta>,
    ring: seq<BlockKey>,
    unbound: int,
    used: int, protectedBytes: int, protectedSlots: int,
    activity: nat)

  /** What clients see of a resident. */
  function ViewOf(m: Meta): Resident {
    Resident(m.ref, m.refs, m.pending, m.until)
  }

  function Seen(p: Pool): View {
    map k | k in p.residents :: ViewOf(p.residents[k])
  }

  // ------------------------------------------------------------ counters

  datatype Scope = OfExtent(e: nat) | OfClass(c: nat) | Overall

  datatype Stat = Count | Pinned | Access | Useful | Protected | Bytes | ProtectedBytes

  predicate Inside(scope: Scope, m: Meta) {
    match scope
    case OfExtent(e) => m.ref.extent == e
    case OfClass(c) => m.ref.cls == c
    case Overall => true
  }

  function Weight(st: Stat, m: Meta): int {
    match st
    case Count => 1
    case Pinned => if m.refs > 0 then 1 else 0
    case Access => m.access
    case Useful => m.useful
    case Protected => if m.until != 0 then 1 else 0
    case Bytes => m.ref.size
    case ProtectedBytes => if m.until != 0 then m.ref.size else 0
  }

  function Share(scope: Scope, st: Stat): Meta -> int {
    (m: Meta) => if Inside(scope, m) then Weight(st, m) else 0
  }

  /** What the residents in `scope` add up to. */
  ghost function Total(residents: map<BlockKey, Meta>, scope: Scope, st: Stat): int {
    Sum(residents, Share(scope, st))
  }

  function Bound(extents: seq<Extent>, c: Option<nat>): nat {
    if extents == [] then 0
    else Bound(extents[..|extents| - 1], c) + (if extents[|extents| - 1].cls == c then 1 else 0)
  }

  // ------------------------------------------------------------ primitive changes

  predicate InPool(p: Pool, ref: SlotRef) {
    ref.cls < |p.classes| && ref.extent < |p.extents|
  }

  function Flag(b: bool): int {
    if b then 1 else 0
  }

  /** A new resident on a slot that `free` no longer lists. */
  function Installed(p: Pool, k: BlockKey, m: Meta, free: F.FreeLists, youngest: nat): Pool
    requires InPool(p, m.ref)
  {
    var c, e := p.classes[m.ref.cls], p.extents[m.ref.extent];
    p.(residents := p.residents[k := m],
       classes := p.classes[m.ref.cls := c.(
         free := free, count := c.count + 1, useful := c.useful + m.useful,
         protected := c.protected + Flag(m.until != 0), ring := c.ring + [k])],
       extents := p.extents[m.ref.extent := e.(
         freeSlots := e.freeSlots - 1, count := e.count + 1, pinned := e.pinned + Flag(m.refs > 0),
         access := e.access + m.access, useful := e.useful + m.useful,
         protected := e.protected + Flag(m.until != 0),
         youngest := if youngest > e.youngest then youngest else e.youngest,
         list := [k] + e.list)],
       ring := p.ring + [k],
       used := p.used + m.ref.size,
       protectedBytes := p.protectedBytes + (if m.until != 0 then m.ref.size else 0),
       protectedSlots := p.protectedSlots + Flag(m.until != 0))
  }

  /** The resident `k` is forgotten and its slot is free again. */
  function Vacated(p: Pool, k: BlockKey): Pool
    requires k in p.residents && InPool(p, p.residents[k].ref)
  {
    var m := p.residents[k];
    var c, e := p.classes[m.ref.cls], p.extents[m.ref.extent];
    p.(residents := p.residents - {k},
       classes := p.classes[m.ref.cls := c.(
         free := F.Push(c.free, m.ref.extent, m.ref.slot), count := c.count - 1, useful := c.useful - m.useful,
         protected := c.protected - Flag(m.until != 0), ring := Without(c.ring, k))],
       extents := p.extents[m.ref.extent := e.(
         freeSlots := e.freeSlots + 1, count := e.count - 1, pinned := e.pinned - Flag(m.refs > 0),
         access := e.access - m.access, useful := e.useful - m.useful,
         protected := e.protected - Flag(m.until != 0),
         list := Without(e.list, k))],
       ring := Without(p.ring, k),
       used := p.used - m.ref.size,
       protectedBytes := p.protectedBytes - (if m.until != 0 then m.ref.size else 0),
       protectedSlots := p.protectedSlots - Flag(m.until != 0))
  }

  /** The metadata of `k` changes but not its slot; the counters follow. */
  function Revised(p: Pool, k: BlockKey, n: Meta): Pool
    requires k in p.residents && InPool(p, p.residents[k].ref)
  {
    var m := p.residents[k];
    var c, e := p.classes[m.ref.cls], p.extents[m.ref.extent];
    p.(residents := p.residents[k := n],
       classes := p.classes[m.ref.cls := c.(protected := c.protected - Flag(m.until != 0) + Flag(n.until != 0))],
       extents := p.extents[m.ref.extent := e.(
         pinned := e.pinned - Flag(m.refs > 0) + Flag(n.refs > 0),
         access := e.access - m.access + n.access,
         protected := e.protected - Flag(m.until != 0) + Flag(n.until != 0))],
       protectedBytes := p.protectedBytes - (if m.until != 0 then m.ref.size else 0) + (if n.until != 0 then m.ref.size
         else 0),
       protectedSlots := p.protectedSlots - Flag(m.until != 0) + Flag(n.until != 0))
  }

  /** Extent `e` is carved into the slots of class `c`, all free. */
  function BoundTo(p: Pool, c: nat, e: nat, free: F.FreeLists): Pool
    requires c < |p.classes| && e < |p.extents|
  {
    var cls := p.classes[c];
    p.(classes := p.classes[c := cls.(free := free, bound := cls.bound + 1)],
       extents := p.extents[e := BLANK.(cls := Some(c), total := cls.perExtent, freeSlots := cls.perExtent)],
       unbound := p.unbound - 1)
  }

  /** An empty extent goes back to the pool. */
  function Released(p: Pool, e: nat): Pool
    requires e < |p.extents| && p.extents[e].cls.Some? && p.extents[e].cls.value < |p.classes|
  {
    var c := p.extents[e].cls.value;
    p.(classes := p.classes[c := p.classes[c].(
         free := F.DropExtent(p.classes[c].free, e), bound := p.classes[c].bound - 1)],
       extents := p.extents[e := BLANK],
       unbound := p.unbound + 1)
  }

  /** An extent that became empty is given back unless the class needs it for striping. */
  predicate GivesBack(p: Pool, e: nat)
    requires e < |p.extents| && p.extents[e].cls.Some? && p.extents[e].cls.value < |p.classes|
  {
    p.extents[e].freeSlots == p.extents[e].total && |p.classes[p.extents[e].cls.value].free.rr| > STRIPE_WAYS
  }

  /** `k` is freed, and its extent too if that leaves it empty and the class can spare it. */
  function FreedSlot(p: Pool, k: BlockKey): Pool
    requires k in p.residents && InPool(p, p.residents[k].ref)
    requires p.extents[p.residents[k].ref.extent].cls == Some(p.residents[k].ref.cls)
  {
    var q, e := Vacated(p, k), p.residents[k].ref.extent;
    if GivesBack(q, e) then Released(q, e) else q
  }

  function Halved(heat: nat, times: nat): nat {
    if times == 0 then heat else Halved(heat / 2, times - 1)
  }

  /** Read heat halves every 64 operations. */
  function DecayedHeat(heat: nat, heatSeq: nat, now: nat): nat {
    var shifts := if now >= heatSeq then (now - heatSeq) / 64 else 0;
    if shifts >= 63 then 0 else Halved(heat, shifts)
  }

  /** New orders for class `c` and for the pool, and new read heat for extent `e`. */
  function Reordered(p: Pool, c: nat, order: seq<BlockKey>, ring: seq<BlockKey>, e: nat, heat: nat, heatSeq: nat): Pool
    requires c < |p.classes| && e < |p.extents|
  {
    p.(classes := p.classes[c := p.classes[c].(ring := order)],
       extents := p.extents[e := p.extents[e].(heat := heat, heatSeq := heatSeq)],
       ring := ring)
  }

  function Ticked(p: Pool): Pool {
    p.(activity := p.activity + 1)
  }

  /** A read: the clock ticks, `k` becomes the most recent of both orders. */
  function Touched(p: Pool, k: BlockKey): Pool
    requires k in p.residents && InPool(p, p.residents[k].ref)
  {
    var m := p.residents[k];
    var now := p.activity + 1;
    var c, e := m.ref.cls, m.ref.extent;
    Reordered(Revised(Ticked(p), k, m.(access := now, referenced := true)),
              c, Refreshed(p.classes[c].ring, k), Refreshed(p.ring, k),
              e, DecayedHeat(p.extents[e].heat, p.extents[e].heatSeq, now) + 1024, now)
  }

  /** Class `c` in the middle of a sweep: its order turned, some reference bits taken. */
  function Sweeping(p: Pool, c: nat, order: seq<BlockKey>, residents: map<BlockKey, Meta>): Pool
    requires c < |p.classes|
  {
    p.(classes := p.classes[c := p.classes[c].(ring := order)], residents := residents)
  }
}
