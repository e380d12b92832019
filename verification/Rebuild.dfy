/** The rebuild of the disk store: the table file is scanned, its records are restored in bulk
    and become the residents and the commit map of the new run. A batch that the allocator
    refuses fails the start. */
module Rebuild {
  import opened Types
  import opened Lifecycle
  import opened DiskStore
  import opened SizeClasses
  import opened SlabPool
  import SlabShape
  import opened RestoreBulk
  import opened RecordCodec
  import opened SparseScan
  import opened Wheel
  import SA = SlabAllocator

  /** What a store is configured with: the class lattice, the extents and the checksum. */
  datatype Layout = Layout(g: Geometry, sizes: seq<nat>, extents: nat, crc: seq<Byte> -> nat)

  ghost predicate Proper(l: Layout) {
    && SizeClasses.Sound(l.g) && Lattice(l.g, l.sizes) && l.g.align <= l.g.extentBytes
    && forall b :: l.crc(b) < U32
  }

  /** No slot is smaller than the granularity, so this many records per extent are enough. */
  function MaxSlots(l: Layout): nat
    requires SizeClasses.Sound(l.g)
  {
    l.g.extentBytes / l.g.align
  }

  function LayoutReader(l: Layout): Reader
    requires SizeClasses.Sound(l.g)
  {
    Reader(l.crc, MaxSlots(l), l.g.align, l.g.extentBytes)
  }

  lemma {:induction false} SomeSlots(l: Layout)
    requires Proper(l)
    ensures Ready(LayoutReader(l))
  {
    SlabShape.PerExtent(l.g.align, l.g.extentBytes);
  }

  // ------------------------------------------------------------ the file of a table

  /** Deadline and lifetime stored with a record. */
  datatype Stamp = Stamp(until: nat, ttl: nat)

  function RecordFor(rec: Rec, s: Stamp): Record {
    Record(rec.key, rec.size, rec.len, rec.valid, s.until, s.ttl)
  }

  function EntryFor(rec: Rec, at: Place, s: Stamp): RestoreEntry {
    RestoreEntry(rec.key, rec.size, at.extent, at.slot, rec.len, s.until, s.ttl)
  }

  predicate Written(l: Layout, file: Table, table: map<Place, Rec>, stamps: Place -> Stamp, i: nat)
    requires SizeClasses.Sound(l.g) && MaxSlots(l) > 0 && |file.bytes| == file.records * REC_BYTES && i < file.records
  {
    var at := PlaceAt(i, MaxSlots(l));
    if at in table then
      var r := RecordFor(table[at], stamps(at));
      InRange(r) && l.crc(Body(r)) < U32 && RecordBytes(file, i) == Encode(r, l.crc)
    else RecordBytes(file, i) == Zeros(REC_BYTES)
  }

  /** Every record of `table` stands encoded in the file, and everything else is zero. */
  ghost predicate Encodes(l: Layout, file: Table, table: map<Place, Rec>, stamps: Place -> Stamp)
    requires Proper(l)
  {
    && MaxSlots(l) > 0 && Sparse(file) && file.records == l.extents * MaxSlots(l)
    && forall i: nat :: i < file.records ==> Written(l, file, table, stamps, i)
  }

  /** The fields of the record fit their places in the file. */
  predicate Writable(table: map<Place, Rec>, stamps: Place -> Stamp, at: Place) {
    at in table ==> InRange(RecordFor(table[at], stamps(at)))
  }

  /** The bytes of position `i`. */
  ghost function BytesFor(l: Layout, table: map<Place, Rec>, stamps: Place -> Stamp, i: nat): (b: seq<Byte>)
    requires Proper(l) && MaxSlots(l) > 0 && forall at :: Writable(table, stamps, at)
    ensures |b| == REC_BYTES
  {
    var at := PlaceAt(i, MaxSlots(l));
    assert Writable(table, stamps, at);
    if at in table then Encode(RecordFor(table[at], stamps(at)), l.crc) else Zeros(REC_BYTES)
  }

  ghost function FileBytes(l: Layout, table: map<Place, Rec>, stamps: Place -> Stamp, n: nat): (b: seq<Byte>)
    requires Proper(l) && MaxSlots(l) > 0 && forall at :: Writable(table, stamps, at)
    ensures |b| == n * REC_BYTES
  {
    if n == 0 then [] else FileBytes(l, table, stamps, n - 1) + BytesFor(l, table, stamps, n - 1)
  }

  lemma {:induction false} FileBytesAt(l: Layout, table: map<Place, Rec>, stamps: Place -> Stamp, n: nat, i: nat)
    requires Proper(l) && MaxSlots(l) > 0 && (forall at :: Writable(table, stamps, at)) && i < n
    ensures FileBytes(l, table, stamps, n)[i * REC_BYTES..i * REC_BYTES + REC_BYTES] == BytesFor(l, table, stamps, i)
  {
    if i < n - 1 { FileBytesAt(l, table, stamps, n - 1, i); }
  }

  /** Every table whose fields are in range has a file. */
  lemma {:induction false} FileExists(l: Layout, table: map<Place, Rec>, stamps: Place -> Stamp) returns (file: Table)
    requires Proper(l) && forall at :: Writable(table, stamps, at)
    ensures Encodes(l, file, table, stamps)
  {
    SomeSlots(l);
    var n := l.extents * MaxSlots(l);
    file := Table(FileBytes(l, table, stamps, n), n, b => false);
    forall i: nat | i < n ensures Written(l, file, table, stamps, i) {
      FileBytesAt(l, table, stamps, n, i);
      assert Writable(table, stamps, PlaceAt(i, MaxSlots(l)));
    }
  }

  predicate ValidAt(table: map<Place, Rec>, at: Place) {
    at in table && table[at].valid
  }

  /** The record fits its position. */
  predicate FitsAt(l: Layout, table: map<Place, Rec>, at: Place)
    requires SizeClasses.Sound(l.g)
  {
    ValidAt(table, at) ==> GeometryOk(table[at].size, table[at].len, at.slot, l.g.align, l.g.extentBytes)
  }

  lemma {:induction false} Reads(l: Layout, file: Table, table: map<Place, Rec>, stamps: Place -> Stamp, i: nat)
    requires Proper(l) && Encodes(l, file, table, stamps) && i < file.records
    requires FitsAt(l, table, PlaceAt(i, MaxSlots(l)))
    ensures Ready(LayoutReader(l))
    ensures var at := PlaceAt(i, MaxSlots(l));
      Readings(file, LayoutReader(l))(i) == if ValidAt(table, at) then Restored(EntryFor(table[at], at, stamps(at)))
        else Nothing
  {
    SomeSlots(l);
    var at := PlaceAt(i, MaxSlots(l));
    assert Written(l, file, table, stamps, i);
    if at in table {
      RoundTrip(RecordFor(table[at], stamps(at)), l.crc, at, l.g.align, l.g.extentBytes);
    } else {
      ZerosAreNothing(l.crc, at, l.g.align, l.g.extentBytes);
    }
  }

  // ------------------------------------------------------------ what the scan finds

  function At(en: RestoreEntry): Place {
    Place(en.extent, en.slot)
  }

  /** The entry of a valid record among the first `n` positions. */
  predicate Listed(l: Layout, table: map<Place, Rec>, stamps: Place -> Stamp, n: nat, en: RestoreEntry)
    requires SizeClasses.Sound(l.g)
  {
    ValidAt(table, At(en)) && en == EntryFor(table[At(en)], At(en), stamps(At(en)))
      && RecordCodec.IndexOf(At(en), MaxSlots(l)) < n
  }

  predicate Missing(l: Layout, table: map<Place, Rec>, stamps: Place -> Stamp, entries: seq<RestoreEntry>, i: nat)
    requires SizeClasses.Sound(l.g) && MaxSlots(l) > 0
  {
    var at := PlaceAt(i, MaxSlots(l));
    ValidAt(table, at) && EntryFor(table[at], at, stamps(at)) !in entries
  }

  /** `entries` lists the valid records of the first `n` positions, each once. */
  ghost predicate Lists(l: Layout, table: map<Place, Rec>, stamps: Place -> Stamp, entries: seq<RestoreEntry>, n: nat)
    requires SizeClasses.Sound(l.g) && MaxSlots(l) > 0
  {
    && (forall i :: 0 <= i < |entries| ==> Listed(l, table, stamps, n, entries[i]))
    && (forall i: nat :: i < n ==> !Missing(l, table, stamps, entries, i))
    && (forall i, j :: 0 <= i < j < |entries| ==> At(entries[i]) != At(entries[j]))
  }

  /** Scanning the file of a table finds its valid records, each once, and rejects nothing. */
  lemma {:induction false} ScanLists(l: Layout, file: Table, table: map<Place, Rec>, stamps: Place -> Stamp, n: nat)
    requires Proper(l) && Encodes(l, file, table, stamps) && n <= file.records
    requires forall at :: FitsAt(l, table, at)
    ensures Ready(LayoutReader(l))
    ensures var f := Sequential(Readings(file, LayoutReader(l)), MaxSlots(l), n);
      f.rejected == [] && Lists(l, table, stamps, f.entries, n)
  {
    SomeSlots(l);
    if n > 0 {
      ScanLists(l, file, table, stamps, n - 1);
      ScanNext(l, file, table, stamps, n - 1);
    }
  }

  lemma {:induction false} ScanNext(l: Layout, file: Table, table: map<Place, Rec>, stamps: Place -> Stamp, n: nat)
    requires Proper(l) && Encodes(l, file, table, stamps) && n < file.records && Ready(LayoutReader(l))
    requires FitsAt(l, table, PlaceAt(n, MaxSlots(l)))
    requires var f := Sequential(Readings(file, LayoutReader(l)), MaxSlots(l), n);
      f.rejected == [] && Lists(l, table, stamps, f.entries, n)
    ensures var f := Sequential(Readings(file, LayoutReader(l)), MaxSlots(l), n + 1);
      f.rejected == [] && Lists(l, table, stamps, f.entries, n + 1)
  {
    var at := PlaceAt(n, MaxSlots(l));
    Reads(l, file, table, stamps, n);
    PositionRoundTrip(at, n, MaxSlots(l));
    var f := Sequential(Readings(file, LayoutReader(l)), MaxSlots(l), n);
    ListsNext(l, table, stamps, f.entries, n);
  }

  lemma {:induction false} ListsNext(l: Layout, table: map<Place, Rec>, stamps: Place -> Stamp,
                                     entries: seq<RestoreEntry>, n: nat)
    requires SizeClasses.Sound(l.g) && MaxSlots(l) > 0 && Lists(l, table, stamps, entries, n)
    requires RecordCodec.IndexOf(PlaceAt(n, MaxSlots(l)), MaxSlots(l)) == n
    ensures var at, next := PlaceAt(n, MaxSlots(l)), n + 1;
      Lists(l, table, stamps, if ValidAt(table, at) then entries + [EntryFor(table[at], at, stamps(at))]
        else entries, next)
  {
    var at := PlaceAt(n, MaxSlots(l));
    var all := if ValidAt(table, at) then entries + [EntryFor(table[at], at, stamps(at))] else entries;
    forall i | 0 <= i < |entries|
      ensures Listed(l, table, stamps, n + 1, entries[i]) { assert Listed(l, table, stamps, n, entries[i]); }
    forall i: nat | i < n + 1 ensures !Missing(l, table, stamps, all, i) {
      if i < n { assert !Missing(l, table, stamps, entries, i); }
        else { assert ValidAt(table, at) ==> all[|entries|] in all; }
    }
    forall i | 0 <= i < |entries| ensures At(entries[i]) != at { assert Listed(l, table, stamps, n, entries[i]); }
  }

  // ------------------------------------------------------------ what the allocator accepts

  /** One entry can be installed in a new allocator. */
  predicate Fits(l: Layout, en: RestoreEntry)
    requires SizeClasses.Sound(l.g)
  {
    && 0 < en.size <= l.g.extentBytes && en.extent < l.extents && en.bytes <= en.size
    && Canonical(l.g, en.size) == en.size && en.size in l.sizes && en.slot < l.g.extentBytes / en.size
  }

  ghost predicate Accepted(l: Layout, entries: seq<RestoreEntry>)
    requires SizeClasses.Sound(l.g)
  {
    && (forall i :: 0 <= i < |entries| ==> Fits(l, entries[i]))
    && (forall i, j :: 0 <= i < j < |entries| ==> Compatible(entries[i], entries[j]))
  }

  lemma {:induction false} AcceptedIsAcceptable(l: Layout, p: Pool, entries: seq<RestoreEntry>)
    requires SizeClasses.Sound(l.g) && Untouched(p)
    requires p.extentBytes == l.g.extentBytes && SlabShape.Sizes(p.classes) == l.sizes && |p.extents| == l.extents
    ensures Acceptable(p, l.g, entries) <==> Accepted(l, entries)
  {
    forall i | 0 <= i < |entries| ensures Restorable(p, l.g, entries[i]) <==> Fits(l, entries[i]) { }
  }

  lemma {:induction false} SlottedFits(l: Layout, en: RestoreEntry, ref: SlotRef)
    requires Proper(l) && Slotted(l.g, l.sizes, l.extents, ref) && Names(en, en.key, ref)
    ensures Fits(l, en)
  {
    LatticeAligned(l.g, l.sizes, Index(l.sizes, ref.size));
    MaxAligned(l.g);
    FixedPointsAreClasses(l.g, l.sizes, ref.size);
  }

  // ------------------------------------------------------------ what is restored

  /** The residents a new allocator has after an accepted batch. */
  function Residents(l: Layout, r: Retention, entries: seq<RestoreEntry>): map<BlockKey, Meta>
    requires forall i :: 0 <= i < |entries| ==> entries[i].size in l.sizes
  {
    WithRestored(map[], r, l.sizes, entries)
  }

  /** What clients see of these residents. */
  function Views(m: map<BlockKey, Meta>): View {
    map k | k in m :: ViewOf(m[k])
  }

  lemma {:induction false} RestoredAt(l: Layout, r: Retention, entries: seq<RestoreEntry>, i: nat)
    requires forall i :: 0 <= i < |entries| ==> entries[i].size in l.sizes
    requires i < |entries| && forall j :: i < j < |entries| ==> entries[j].key != entries[i].key
    ensures var m := Residents(l, r, entries);
      entries[i].key in m && m[entries[i].key] == RestoredMeta(r, Index(l.sizes, entries[i].size), entries[i])
  {
    var n := |entries| - 1;
    if i < n { RestoredAt(l, r, entries[..n], i); }
  }

  lemma {:induction false} RestoredOnly(l: Layout, r: Retention, entries: seq<RestoreEntry>, k: BlockKey)
    returns (i: nat)
    requires forall i :: 0 <= i < |entries| ==> entries[i].size in l.sizes
    requires k in Residents(l, r, entries)
    ensures i < |entries| && entries[i].key == k
  {
    var n := |entries| - 1;
    if entries[n].key == k { i := n; } else { i := RestoredOnly(l, r, entries[..n], k); }
  }

  // ------------------------------------------------------------ the rebuild itself

  /** Scan and bulk restore into a new allocator. The start fails exactly when the records of
      the file do not fit together; otherwise every record is resident on its slot. */
  method RebuildTable(l: Layout, file: Table, chunk: nat, seeks: nat -> bool, alloc: SA.SlabAllocator)
    returns (ok: bool, found: Found)
    requires Proper(l) && MaxSlots(l) > 0 && Sparse(file) && chunk > 0
    requires alloc.Valid() && Untouched(alloc.pool) && alloc.geometry == l.g
    requires SlabShape.Sizes(alloc.pool.classes) == l.sizes && alloc.numExtents == l.extents
    modifies alloc
    ensures alloc.Valid() && found == FullScan(file, LayoutReader(l))
    ensures ok <==> Accepted(l, found.entries)
    ensures ok ==> alloc.View() == Views(Residents(l, old(alloc.retention), found.entries)) && SlabShape.Lru(alloc.pool)
    ensures !ok ==> alloc.View() == map[]
  {
    SomeSlots(l);
    found := Scan(file, LayoutReader(l), chunk, seeks);
    AcceptedIsAcceptable(l, alloc.pool, found.entries);
    ok := alloc.Restore(found.entries);
  }
}
