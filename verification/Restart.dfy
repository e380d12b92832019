/** Restart of the disk store. A clean/dirty epoch marker decides what the next open may
    serve: it is written dirty before the first request and clean only after payloads and
    table have been synced by an orderly shutdown. Until it is clean, a crash leaves the
    files in an arbitrary state. An open scans the table file and restores its records in
    bulk, and fails if the allocator refuses them. */
module Restart {
  import opened Types
  import opened Lifecycle
  import opened DiskStore
  import opened DiskStoreSafety
  import opened Rebuild
  import opened RestoreBulk
  import RecordCodec
  import SparseScan
  import SizeClasses
  import SlabPool
  import SlabShape
  import Wheel

  datatype Epoch = Clean | Dirty

  /** The files: what the slot table holds, and the extents. */
  datatype Image = Image(table: map<Place, Rec>, media: seq<seq<Byte>>)

  /** What one key looks like to a client across a restart. */
  datatype Kept = Kept(ref: SlotRef, data: seq<Byte>)

  type Snapshot = map<BlockKey, Kept>

  datatype Process =
    | Off
    | Opening(reset: bool)
    | Up(store: Store)
    | Closing(store: Store)

  /** `due` is a history variable: what the next open has to serve. */
  datatype World = World(layout: Layout, epoch: Epoch, image: Image, process: Process, due: Snapshot)

  /** An open reads the table from `file`, whose records carry the retention `stamps`. */
  datatype Event =
    | Start
    | Reset
    | Open(file: SparseScan.Table, stamps: Place -> Stamp, retention: Wheel.Retention)
    | Inside(step: Step)
    | Sync
    | MarkClean
    | Crash(image: Image)

  // ------------------------------------------------------------ the reopened store

  function BytesAt(media: seq<seq<Byte>>, ref: SlotRef, len: nat): seq<Byte> {
    if InMedia(media, ref) && len <= ref.size then Slice(media, ref, len) else []
  }

  /** The store a rebuild makes of what the scan found: restored residents, their lengths in the
      commit map, rejected records cleared. */
  function Reopened(l: Layout, image: Image, found: SparseScan.Found, r: Wheel.Retention): Store
    requires forall i :: 0 <= i < |found.entries| ==> found.entries[i].size in l.sizes
  {
    var m := Residents(l, r, found.entries);
    Store(l.g.extentBytes, Views(m), image.media,
          image.table - (set p | p in found.rejected), map k | k in m :: m[k].useful,
          map[], {}, map[], map[], map[], map k | k in m :: BytesAt(image.media, m[k].ref, m[k].useful), true)
  }

  ghost function FoundIn(l: Layout, file: SparseScan.Table): SparseScan.Found
    requires Proper(l) && SparseScan.Sparse(file)
  {
    SomeSlots(l);
    SparseScan.FullScan(file, LayoutReader(l))
  }

  // ------------------------------------------------------------ the world

  /** The snapshot a store leaves behind when it is closed in an orderly way. */
  function SnapshotOf(s: Store): Snapshot
    requires s.values.Keys <= s.view.Keys
  {
    map k | k in s.values :: Kept(s.view[k].ref, s.values[k])
  }

  ghost predicate Quiet(s: Store) {
    s.writers == map[] && s.readers == map[]
  }

  ghost predicate SizedMedia(media: seq<seq<Byte>>, l: Layout) {
    |media| == l.extents && forall e :: 0 <= e < |media| ==> |media[e]| == l.g.extentBytes
  }

  predicate InLattice(l: Layout, ref: SlotRef) {
    Slotted(l.g, l.sizes, l.extents, ref)
  }

  /** A reservation gets its slot from the allocator, which hands out slots of the lattice. */
  ghost predicate Can(w: World, e: Event)
    requires Proper(w.layout)
  {
    match e
    case Start => w.process.Off?
    case Reset => w.process == Opening(false) && w.epoch == Dirty
    case Open(file, stamps, _) =>
      && (w.process == Opening(true) || (w.process == Opening(false) && w.epoch == Clean))
      && Encodes(w.layout, file, w.image.table, stamps)
    case Inside(step) =>
      w.process.Up? && Enabled(w.process.store, step) && (step.Reserve? ==> InLattice(w.layout, step.ref))
    case Sync => w.process.Up? && w.process.store.healthy && Quiet(w.process.store)
    case MarkClean => w.process.Closing? && w.process.store.values.Keys <= w.process.store.view.Keys
    case Crash(image) =>
      SizedMedia(image.media, w.layout) && (w.epoch == Clean ==> image == w.image)
  }

  /** The open succeeds if the allocator accepts what the scan found. */
  ghost predicate Opens(w: World, e: Event)
    requires Proper(w.layout) && Can(w, e)
  {
    e.Open? && Accepted(w.layout, FoundIn(w.layout, e.file).entries)
  }

  ghost function After(w: World, e: Event): World
    requires Proper(w.layout) && Can(w, e)
  {
    match e
    case Start => w.(process := Opening(false))
    case Reset => w.(process := Opening(true), image := w.image.(table := map[]))
    case Open(file, stamps, r) =>
      if !Opens(w, e) then w.(process := Off)
      else w.(epoch := Dirty, process := Up(Reopened(w.layout, w.image, FoundIn(w.layout, file), r)), due := map[])
    case Inside(step) => w.(process := Up(Apply(w.process.store, step)))
    case Sync =>
      w.(image := Image(w.process.store.table, w.process.store.media), process := Closing(w.process.store))
    case MarkClean => w.(epoch := Clean, process := Off, due := SnapshotOf(w.process.store))
    case Crash(image) => w.(image := image, process := Off)
  }

  // ------------------------------------------------------------ invariant

  /** The files hold the snapshot and nothing else. */
  ghost predicate KeptOk(l: Layout, image: Image, due: Snapshot, k: BlockKey) {
    k in due ==>
      && PlaceOf(due[k].ref) in image.table
      && image.table[PlaceOf(due[k].ref)] == Rec(k, due[k].ref.size, |due[k].data|, true)
      && InLattice(l, due[k].ref)
      && HoldsBytes(image.media, due[k].ref, due[k].data)
  }

  predicate RecordKept(image: Image, due: Snapshot, p: Place) {
    p in image.table && image.table[p].valid ==>
      image.table[p].key in due && PlaceOf(due[image.table[p].key].ref) == p
  }

  predicate KeptApart(due: Snapshot, j: BlockKey, k: BlockKey) {
    j in due && k in due && j != k && due[j].ref.extent == due[k].ref.extent ==>
      due[j].ref.size == due[k].ref.size && due[j].ref.slot != due[k].ref.slot
  }

  ghost predicate Preserves(l: Layout, image: Image, due: Snapshot) {
    && (forall k :: KeptOk(l, image, due, k))
    && (forall p :: RecordKept(image, due, p))
    && (forall j, k :: KeptApart(due, j, k))
  }

  predicate SlotOk(l: Layout, v: View, k: BlockKey) {
    k in v ==> InLattice(l, v[k].ref)
  }

  ghost predicate StoreOk(l: Layout, s: Store) {
    && Inv(s) && s.extentBytes == l.g.extentBytes && |s.media| == l.extents
    && forall k :: SlotOk(l, s.view, k)
  }

  ghost predicate WorldOk(w: World) {
    && Proper(w.layout) && SizedMedia(w.image.media, w.layout)
    && (w.epoch == Clean ==> Preserves(w.layout, w.image, w.due) && (w.process.Off? || w.process == Opening(false)))
    && (w.epoch == Dirty ==> w.due == map[])
    && (w.process == Opening(true) ==> w.image.table == map[])
    && (w.process.Up? || w.process.Closing? ==> w.epoch == Dirty && StoreOk(w.layout, w.process.store))
    && (w.process.Closing? ==>
          && w.process.store.healthy && Quiet(w.process.store)
          && w.image == Image(w.process.store.table, w.process.store.media))
  }

  // ------------------------------------------------------------ positions of kept records

  lemma {:induction false} Quotient(p: nat, q: nat, a: nat, x: nat)
    requires q * a <= x < p * a + a
    ensures q <= p
  {
    if p < q { SizeClasses.MulGap(p, q, a); }
  }

  lemma {:induction false} Swapped(x: nat, y: nat)
    ensures x * y == y * x
  {
  }

  lemma {:induction false} DivLess(n: nat, a: nat, b: nat)
    requires 0 < a <= b
    ensures n / b <= n / a
  {
    var q := n / b;
    SizeClasses.FloorFacts(n, a);
    SizeClasses.FloorFacts(n, b);
    SizeClasses.MulMono(a, b, q);
    Swapped(a, q);
    Swapped(b, q);
    Quotient(n / a, q, a, n);
  }

  /** A slot of the lattice has its record in the table file. */
  lemma {:induction false} HasRecord(l: Layout, ref: SlotRef)
    requires Proper(l) && InLattice(l, ref)
    ensures MaxSlots(l) > 0 && l.g.align <= ref.size <= l.g.extentBytes && SizeClasses.Aligned(l.g, ref.size)
    ensures RecordCodec.IndexOf(PlaceOf(ref), MaxSlots(l)) < l.extents * MaxSlots(l)
    ensures RecordCodec.PlaceAt(RecordCodec.IndexOf(PlaceOf(ref), MaxSlots(l)), MaxSlots(l)) == PlaceOf(ref)
  {
    SomeSlots(l);
    SizeClasses.LatticeAligned(l.g, l.sizes, Index(l.sizes, ref.size));
    SizeClasses.MaxAligned(l.g);
    SizeClasses.FixedPointsAreClasses(l.g, l.sizes, ref.size);
    DivLess(l.g.extentBytes, l.g.align, ref.size);
    RecordCodec.PositionRoundTrip(PlaceOf(ref), 0, MaxSlots(l));
    SizeClasses.MulGap(ref.extent, l.extents, MaxSlots(l));
  }

  lemma {:induction false} KeptFits(l: Layout, image: Image, due: Snapshot, at: Place)
    requires Proper(l) && Preserves(l, image, due)
    ensures FitsAt(l, image.table, at)
  {
    assert RecordKept(image, due, at);
    if ValidAt(image.table, at) {
      var k := image.table[at].key;
      assert KeptOk(l, image, due, k);
      LatticeFits(l, due[k].ref, |due[k].data|);
    }
  }

  lemma {:induction false} LatticeFits(l: Layout, ref: SlotRef, len: nat)
    requires Proper(l) && InLattice(l, ref) && len <= ref.size
    ensures RecordCodec.GeometryOk(ref.size, len, ref.slot, l.g.align, l.g.extentBytes)
  {
    HasRecord(l, ref);
    SizeClasses.FlooredDivides(ref.size, l.g.align);
  }

  // ------------------------------------------------------------ opening

  /** Each found entry names the slot and the length of a kept key. */
  lemma {:induction false} FoundKept(l: Layout, image: Image, due: Snapshot, stamps: Place -> Stamp, en: RestoreEntry,
                                     n: nat)
    requires Proper(l) && Preserves(l, image, due) && Listed(l, image.table, stamps, n, en)
    ensures en.key in due && Names(en, en.key, due[en.key].ref) && en.bytes == |due[en.key].data|
    ensures en.size in l.sizes && RefOf(Index(l.sizes, en.size), en) == due[en.key].ref && Fits(l, en)
  {
    assert RecordKept(image, due, At(en)) && KeptOk(l, image, due, en.key);
    SlottedFits(l, en, due[en.key].ref);
  }

  /** The allocator accepts the records of a preserved snapshot. */
  lemma {:induction false} FoundAccepted(l: Layout, image: Image, due: Snapshot, stamps: Place -> Stamp,
                                         entries: seq<RestoreEntry>, n: nat)
    requires Proper(l) && MaxSlots(l) > 0 && Preserves(l, image, due) && Lists(l, image.table, stamps, entries, n)
    ensures Accepted(l, entries)
    ensures forall i, j :: 0 <= i < j < |entries| ==> entries[i].key != entries[j].key
  {
    forall i | 0 <= i < |entries| ensures Fits(l, entries[i]) { FoundKept(l, image, due, stamps, entries[i], n); }
    forall i, j | 0 <= i < j < |entries| ensures Compatible(entries[i], entries[j]) {
      FoundKept(l, image, due, stamps, entries[i], n);
      FoundKept(l, image, due, stamps, entries[j], n);
      assert KeptApart(due, entries[i].key, entries[j].key);
    }
  }

  /** A kept key is found. */
  lemma {:induction false} KeptFound(l: Layout, image: Image, due: Snapshot, stamps: Place -> Stamp,
                                     entries: seq<RestoreEntry>, k: BlockKey)
    returns (i: nat)
    requires Proper(l) && MaxSlots(l) > 0 && Preserves(l, image, due) && k in due
    requires Lists(l, image.table, stamps, entries, l.extents * MaxSlots(l))
    ensures i < |entries| && entries[i].key == k
  {
    assert KeptOk(l, image, due, k);
    HasRecord(l, due[k].ref);
    var at := PlaceOf(due[k].ref);
    assert !Missing(l, image.table, stamps, entries, RecordCodec.IndexOf(at, MaxSlots(l)));
    i :| 0 <= i < |entries| && entries[i] == EntryFor(image.table[at], at, stamps(at));
  }

  /** A restored resident has the slot, the length and the bytes it was kept with. */
  predicate Rebuilt(image: Image, due: Snapshot, m: map<BlockKey, SlabPool.Meta>, k: BlockKey) {
    && (k in m <==> k in due)
    && (k in due ==>
          && m[k].ref == due[k].ref && m[k].refs == 0 && !m[k].pending && m[k].useful == |due[k].data|
          && BytesAt(image.media, m[k].ref, m[k].useful) == due[k].data)
  }

  lemma {:induction false} RebuiltKey(l: Layout, image: Image, due: Snapshot, stamps: Place -> Stamp,
                                      entries: seq<RestoreEntry>,
                                      r: Wheel.Retention, k: BlockKey)
    requires Proper(l) && MaxSlots(l) > 0 && Preserves(l, image, due)
    requires Lists(l, image.table, stamps, entries, l.extents * MaxSlots(l)) && Accepted(l, entries)
    requires forall i, j :: 0 <= i < j < |entries| ==> entries[i].key != entries[j].key
    ensures Rebuilt(image, due, Residents(l, r, entries), k)
  {
    var m := Residents(l, r, entries);
    if k in due || k in m {
      var i;
      if k in due { i := KeptFound(l, image, due, stamps, entries, k); } else { i := RestoredOnly(l, r, entries, k); }
      FoundKept(l, image, due, stamps, entries[i], l.extents * MaxSlots(l));
      RestoredAt(l, r, entries, i);
      assert KeptOk(l, image, due, k);
    }
  }

  /** Opening the files of a snapshot succeeds and yields a consistent store that serves exactly
      the snapshot: the same keys, the same slots, the same bytes. */
  lemma {:induction false} ReopenedServes(l: Layout, image: Image, due: Snapshot, file: SparseScan.Table,
                                          stamps: Place -> Stamp,
                                          r: Wheel.Retention)
    requires Proper(l) && SizedMedia(image.media, l) && Preserves(l, image, due)
      && Encodes(l, file, image.table, stamps)
    ensures var found := FoundIn(l, file); found.rejected == [] && Accepted(l, found.entries)
    ensures var s := Reopened(l, image, FoundIn(l, file), r);
            && StoreOk(l, s) && Quiet(s) && s.healthy
            && s.values.Keys == s.view.Keys && SnapshotOf(s) == due
  {
    SomeSlots(l);
    var found := FoundIn(l, file);
    forall at ensures FitsAt(l, image.table, at) { KeptFits(l, image, due, at); }
    ScanLists(l, file, image.table, stamps, file.records);
    FoundAccepted(l, image, due, stamps, found.entries, file.records);
    var s, m := Reopened(l, image, found, r), Residents(l, r, found.entries);
    forall k ensures Rebuilt(image, due, m, k) { RebuiltKey(l, image, due, stamps, found.entries, r, k); }
    RebuiltServes(l, image, due, m, s);
  }

  lemma {:induction false} RebuiltServes(l: Layout, image: Image, due: Snapshot, m: map<BlockKey, SlabPool.Meta>,
                                         s: Store)
    requires SizedMedia(image.media, l) && Preserves(l, image, due) && forall k :: Rebuilt(image, due, m, k)
    requires s == Store(l.g.extentBytes, Views(m), image.media, image.table,
                        map k | k in m :: m[k].useful, map[], {}, map[], map[], map[],
                        map k | k in m :: BytesAt(image.media, m[k].ref, m[k].useful), true)
    ensures StoreOk(l, s) && s.values.Keys == s.view.Keys && SnapshotOf(s) == due
  {
    forall k ensures (k in s.view <==> k in due) && (k in s.values <==> k in due) && (k in s.committed <==> k in due)
      ensures k in due ==> && s.view[k].ref == due[k].ref && s.view[k].refs == 0 && !s.view[k].pending
                           && s.committed[k] == |due[k].data| && s.values[k] == due[k].data
    {
      assert Rebuilt(image, due, m, k);
    }
    ReopenedOk(l, image, due, s);
    forall k ensures SlotOk(l, s.view, k) { assert KeptOk(l, image, due, k); }
    assert SnapshotOf(s) == due;
  }

  lemma {:induction false} ReopenedOk(l: Layout, image: Image, due: Snapshot, s: Store)
    requires SizedMedia(image.media, l) && Preserves(l, image, due) && s.extentBytes == l.g.extentBytes
    requires s.media == image.media && s.table == image.table
    requires s.inflight == map[] && s.deferred == {} && s.flights == map[] && s.writers == map[] && s.readers == map[]
    requires s.view.Keys == due.Keys && s.committed.Keys == due.Keys && s.values.Keys == due.Keys
    requires forall k :: k in due ==>
               && s.view[k].ref == due[k].ref && s.view[k].refs == 0 && !s.view[k].pending
               && s.committed[k] == |due[k].data| && s.values[k] == due[k].data
    ensures Inv(s)
  {
    forall e ensures FileOk(s, e) {}
    forall k ensures InExtent(s.view, s.extentBytes, k) { assert KeptOk(l, image, due, k); }
    forall j, k ensures Apart(s.view, j, k) { assert KeptApart(due, j, k); }
    forall k ensures KeyOk(s, k) { assert KeptOk(l, image, due, k); }
    forall k ensures CommitOk(s, k) { assert KeptOk(l, image, due, k); }
    forall t ensures WriterOk(s, t) && ReaderOk(s, t) {}
    forall p ensures RecordOk(s, p) {
      KeptRecord(l, image, due, p);
      assert RecordKept(image, due, p);
    }
  }

  lemma {:induction false} KeptRecord(l: Layout, image: Image, due: Snapshot, p: Place)
    requires Preserves(l, image, due)
    ensures p in image.table && image.table[p].valid ==>
              image.table[p].key in due && due[image.table[p].key].ref.size == image.table[p].size
  {
    assert RecordKept(image, due, p);
    assert p in image.table ==> KeptOk(l, image, due, image.table[p].key);
  }

  // ------------------------------------------------------------ closing

  /** With nothing in flight a healthy store's residents are exactly its committed keys. */
  lemma {:induction false} QuietIsCommitted(s: Store)
    requires Inv(s) && s.healthy && Quiet(s)
    ensures s.view.Keys == s.committed.Keys == s.values.Keys
    ensures s.inflight == map[] && s.deferred == {} && s.flights == map[]
  {
    forall k ensures k in s.view <==> k in s.committed
      ensures k in s.values <==> k in s.committed
      ensures k !in s.inflight && k !in s.deferred && k !in s.flights
    {
      assert KeyOk(s, k) && CommitOk(s, k);
    }
  }

  /** After an orderly shutdown the files hold exactly the committed keys. */
  lemma {:induction false} ClosedPreserves(l: Layout, s: Store)
    requires StoreOk(l, s) && s.healthy && Quiet(s)
    ensures s.values.Keys <= s.view.Keys
    ensures Preserves(l, Image(s.table, s.media), SnapshotOf(s))
  {
    QuietIsCommitted(s);
    var image, due := Image(s.table, s.media), SnapshotOf(s);
    forall k ensures KeptOk(l, image, due, k) {
      assert CommitOk(s, k) && SlotOk(l, s.view, k);
    }
    forall p ensures RecordKept(image, due, p) { assert RecordOk(s, p); }
    forall j, k ensures KeptApart(due, j, k) { assert Apart(s.view, j, k); }
  }

  // ------------------------------------------------------------ runs

  /** A resident keeps its slot; a new one has the slot of its reservation. */
  predicate SameSlot(v: View, w: View, k: BlockKey) {
    k in w ==> k in v && w[k].ref == v[k].ref
  }

  lemma {:induction false} ReleaseSlots(s: Store, j: BlockKey, recordOk: bool, k: BlockKey)
    ensures SameSlot(s.view, AfterRelease(s, j, recordOk).view, k)
  {
    var u := Unhold(s, j);
    assert SameSlot(s.view, u.view, k);
    if Inherits(s, j) { assert SameSlot(u.view, PerformRemoval(u, j, recordOk).view, k); }
  }

  lemma {:induction false} CommitSlots(s: Store, t: nat, recordOk: bool, k: BlockKey)
    requires t in s.writers
    ensures SameSlot(s.view, AfterCommit(s, t, recordOk).view, k)
  {
    ReleaseSlots(s, s.writers[t].key, recordOk, k);
    assert SameSlot(AfterRelease(s, s.writers[t].key, recordOk).view, AfterCommit(s, t, recordOk).view, k);
  }

  predicate Releases(step: Step) {
    step.Commit? || step.Release? || step.Remove?
  }

  lemma {:induction false} ReleasingSlots(s: Store, step: Step, k: BlockKey)
    requires Enabled(s, step) && Releases(step)
    ensures SameSlot(s.view, Apply(s, step).view, k)
  {
    match step
    case Commit(t, recordOk) => CommitSlots(s, t, recordOk, k);
    case Release(t, recordOk) => ReleaseSlots(s, s.readers[t].key, recordOk, k);
    case Remove(_, _) =>
  }

  lemma {:induction false} StepSlots(s: Store, step: Step, k: BlockKey)
    requires Enabled(s, step)
    ensures SameSlot(s.view, Apply(s, step).view, k)
      || (step.Reserve? && step.key == k && Apply(s, step).view[k].ref == step.ref)
  {
    if Releases(step) { ReleasingSlots(s, step, k); }
  }

  lemma {:induction false} GeometryFixed(s: Store, step: Step)
    requires Enabled(s, step)
    ensures Apply(s, step).extentBytes == s.extentBytes && |Apply(s, step).media| == |s.media|
  {
    match step
    case Commit(t, recordOk) => CommitFrame(s, t, recordOk, s.writers[t].key);
    case Release(t, recordOk) => assert ReleaseFrame(s, AfterRelease(s, s.readers[t].key, recordOk));
    case _ =>
  }

  lemma {:induction false} InsideKeeps(l: Layout, s: Store, step: Step)
    requires StoreOk(l, s) && Enabled(s, step) && (step.Reserve? ==> InLattice(l, step.ref))
    ensures StoreOk(l, Apply(s, step))
  {
    StepKeeps(s, step);
    GeometryFixed(s, step);
    var u := Apply(s, step);
    forall k ensures SlotOk(l, u.view, k) {
      StepSlots(s, step, k);
      assert SlotOk(l, s.view, k);
    }
  }

  lemma {:induction false} SyncSized(l: Layout, s: Store)
    requires StoreOk(l, s)
    ensures SizedMedia(s.media, l)
  {
    forall e | 0 <= e < |s.media| ensures |s.media[e]| == l.g.extentBytes { assert FileOk(s, e); }
  }

  lemma {:induction false} EventKeeps(w: World, e: Event)
    requires WorldOk(w) && Can(w, e)
    ensures WorldOk(After(w, e))
  {
    match e
    case Open(_, _, _) => OpenExact(w, e);
    case Inside(step) => InsideKeeps(w.layout, w.process.store, step);
    case Sync => SyncSized(w.layout, w.process.store);
    case MarkClean => ClosedPreserves(w.layout, w.process.store);
    case _ =>
  }

  /** Every open, of every run with crashes anywhere, succeeds and serves exactly what is due:
      the snapshot of the last orderly shutdown if nothing was served since, otherwise nothing. */
  lemma {:induction false} OpenExact(w: World, e: Event)
    requires WorldOk(w) && Can(w, e) && e.Open?
    ensures Opens(w, e)
    ensures var s := After(w, e).process.store;
            && StoreOk(w.layout, s) && Quiet(s) && s.healthy
            && s.values.Keys == s.view.Keys && SnapshotOf(s) == w.due
  {
    if w.epoch == Dirty {
      assert Preserves(w.layout, w.image, map[]) by {
        forall k ensures KeptOk(w.layout, w.image, map[], k) {}
        forall p ensures RecordKept(w.image, map[], p) {}
      }
    }
    ReopenedServes(w.layout, w.image, w.due, e.file, e.stamps, e.retention);
  }

  ghost predicate History(ws: seq<World>, es: seq<Event>) {
    && |ws| == |es| + 1
    && forall i :: 0 <= i < |es| ==> Proper(ws[i].layout) && Can(ws[i], es[i]) && ws[i + 1] == After(ws[i], es[i])
  }

  /** A newly created store: clean epoch, empty table. */
  ghost predicate Fresh(w: World) {
    && Proper(w.layout) && w.epoch == Clean && w.process.Off? && w.image.table == map[] && w.due == map[]
    && SizedMedia(w.image.media, w.layout)
  }

  lemma {:induction false} HistoryKeeps(ws: seq<World>, es: seq<Event>, n: nat)
    requires History(ws, es) && Fresh(ws[0]) && n <= |es|
    ensures WorldOk(ws[n])
  {
    if n == 0 {
      var w := ws[0];
      assert Preserves(w.layout, w.image, w.due) by {
        forall k ensures KeptOk(w.layout, w.image, w.due, k) {}
        forall p ensures RecordKept(w.image, w.due, p) {}
      }
    } else {
      HistoryKeeps(ws, es, n - 1);
      EventKeeps(ws[n - 1], es[n - 1]);
    }
  }

  predicate Served(e: Event) { e.Open? }

  /** Two quiet stores with one snapshot agree on keys, slots, lengths and bytes. */
  lemma {:induction false} SameSnapshot(s: Store, t: Store)
    requires Inv(s) && s.healthy && Quiet(s) && Inv(t) && t.healthy && Quiet(t)
    requires s.values.Keys <= s.view.Keys && t.values.Keys <= t.view.Keys && SnapshotOf(t) == SnapshotOf(s)
    ensures s.values.Keys == s.view.Keys == s.committed.Keys && t.values.Keys == t.view.Keys == t.committed.Keys
    ensures t.values == s.values && t.committed == s.committed && forall k ::
      k in s.view ==> t.view[k].ref == s.view[k].ref
  {
    QuietIsCommitted(s);
    QuietIsCommitted(t);
    forall k ensures k in s.values <==> k in t.values
      ensures k in s.values ==>
        t.values[k] == s.values[k] && t.view[k].ref == s.view[k].ref && t.committed[k] == s.committed[k]
    {
      assert k in SnapshotOf(s) <==> k in SnapshotOf(t);
      assert CommitOk(s, k) && CommitOk(t, k);
      if k in s.values { assert SnapshotOf(s)[k] == SnapshotOf(t)[k]; }
    }
  }

  /** After an orderly shutdown, whatever crashes interrupt the next openings, the next open
      succeeds and its store has exactly the keys, slots and bytes that were committed. */
  lemma {:induction false} CleanRestart(ws: seq<World>, es: seq<Event>, i: nat, n: nat)
    requires History(ws, es) && Fresh(ws[0])
    requires i < n < |es| && es[i] == MarkClean && es[n].Open?
    requires forall j :: i < j < n ==> !Served(es[j]) && es[j] != MarkClean
    ensures ws[n + 1].process.Up?
    ensures var s, t := ws[i].process.store, ws[n + 1].process.store;
            && s.values.Keys == s.view.Keys == s.committed.Keys
            && t.values.Keys == t.view.Keys == t.committed.Keys
            && t.values == s.values && t.committed == s.committed
            && forall k :: k in s.view ==> t.view[k].ref == s.view[k].ref
  {
    HistoryKeeps(ws, es, i);
    HistoryKeeps(ws, es, n);
    DueStays(ws, es, i + 1, n);
    var s := ws[i].process.store;
    QuietIsCommitted(s);
    OpenExact(ws[n], es[n]);
    var t := ws[n + 1].process.store;
    SameSnapshot(s, t);
  }

  /** The key of a record, and what an invalidated record still says, fit their fields. */
  predicate Narrow(rec: Rec) {
    && RecordCodec.InRange(RecordCodec.Record(rec.key, 0, 0, rec.valid, 0, 0))
    && (!rec.valid ==> rec.size < RecordCodec.U32 && rec.len < RecordCodec.U32)
  }

  lemma {:induction false} PreservedWritable(l: Layout, image: Image, due: Snapshot, at: Place)
    requires Proper(l) && Preserves(l, image, due) && (at in image.table ==> Narrow(image.table[at]))
    ensures Writable(image.table, (p: Place) => Stamp(0, 0), at)
  {
    assert RecordKept(image, due, at);
    if ValidAt(image.table, at) {
      var k := image.table[at].key;
      assert KeptOk(l, image, due, k);
      SizeClasses.LatticeAligned(l.g, l.sizes, Index(l.sizes, due[k].ref.size));
      SizeClasses.FloorFacts(SizeClasses.UINT32_MAX, l.g.align);
    }
  }

  /** An open is always possible: what an orderly shutdown left has a table file, and so has an
      empty table. */
  lemma {:induction false} OpenPossible(w: World, r: Wheel.Retention) returns (file: SparseScan.Table)
    requires WorldOk(w) && (w.process == Opening(true) || (w.process == Opening(false) && w.epoch == Clean))
    requires forall at :: at in w.image.table ==> Narrow(w.image.table[at])
    ensures Can(w, Open(file, (p: Place) => Stamp(0, 0), r))
  {
    var stamps := (p: Place) => Stamp(0, 0);
    forall at ensures Writable(w.image.table, stamps, at) {
      if w.epoch == Clean { PreservedWritable(w.layout, w.image, w.due, at); }
    }
    file := FileExists(w.layout, w.image.table, stamps);
  }

  lemma {:induction false} DueStays(ws: seq<World>, es: seq<Event>, i: nat, n: nat)
    requires History(ws, es) && i <= n <= |es|
    requires forall j :: i <= j < n ==> !Served(es[j]) && es[j] != MarkClean
    ensures ws[n].due == ws[i].due
    decreases n - i
  {
    if i < n { DueStays(ws, es, i, n - 1); assert !Served(es[n - 1]); }
  }

  /** After a run that did not reach the clean mark, however it ended, the next open succeeds
      and its store is empty. */
  lemma {:induction false} DirtyRestart(ws: seq<World>, es: seq<Event>, i: nat, n: nat)
    requires History(ws, es) && Fresh(ws[0])
    requires i < n < |es| && es[i].Open? && es[n].Open?
    requires forall j :: i < j < n ==> !Served(es[j]) && es[j] != MarkClean
    ensures ws[n + 1].process.Up?
    ensures var t := ws[n + 1].process.store;
            t.values == map[] && t.committed == map[] && t.view == map[]
  {
    HistoryKeeps(ws, es, i);
    OpenExact(ws[i], es[i]);
    HistoryKeeps(ws, es, n);
    DueStays(ws, es, i + 1, n);
    OpenExact(ws[n], es[n]);
    var t := ws[n + 1].process.store;
    assert SnapshotOf(t).Keys == t.values.Keys;
    QuietIsCommitted(t);
  }
}
