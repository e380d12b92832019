/** Rebuilding from the slot table: walking only its data ranges finds the same records, in
    the same order, as reading it from the first byte to the last. */
module SparseScan {
  import opened Types
  import opened RecordCodec
  import opened RestoreBulk

  /** The table file: `records` records of 64 bytes, and which bytes lie in holes. */
  datatype Table = Table(bytes: seq<Byte>, records: nat, hole: nat -> bool)

  /** Holes read as zeros. */
  ghost predicate Sparse(t: Table) {
    && |t.bytes| == t.records * REC_BYTES
    && forall b :: 0 <= b < |t.bytes| && t.hole(b) ==> t.bytes[b] == 0
  }

  /** How records are read; a zero record means nothing. */
  datatype Reader = Reader(crc: seq<Byte> -> nat, maxSlots: nat, granularity: nat, extentBytes: nat)

  predicate Ready(r: Reader) {
    r.maxSlots > 0 && r.granularity > 0
  }

  /** The two lists a scan fills, in the order of the table. */
  datatype Found = Found(entries: seq<RestoreEntry>, rejected: seq<Place>)

  function RecordBytes(t: Table, i: nat): (b: seq<Byte>)
    requires |t.bytes| == t.records * REC_BYTES && i < t.records
    ensures |b| == REC_BYTES
  {
    t.bytes[i * REC_BYTES..i * REC_BYTES + REC_BYTES]
  }

  function Read(t: Table, r: Reader, i: nat): Outcome
    requires |t.bytes| == t.records * REC_BYTES && i < t.records && Ready(r)
  {
    Parse(RecordBytes(t, i), r.crc, PlaceAt(i, r.maxSlots), r.granularity, r.extentBytes)
  }

  /** One record's contribution. */
  function Noted(f: Found, o: Outcome, at: Place): Found {
    match o
    case Nothing => f
    case Rejected => f.(rejected := f.rejected + [at])
    case Restored(en) => f.(entries := f.entries + [en])
  }

  /** What each record of the table contributes. */
  function Readings(t: Table, r: Reader): nat -> Outcome
    requires |t.bytes| == t.records * REC_BYTES && Ready(r)
  {
    (i: nat) => if i < t.records then Read(t, r, i) else Nothing
  }

  /** The sequential scan of the first `n` records. */
  function Sequential(o: nat -> Outcome, maxSlots: nat, n: nat): Found
    requires maxSlots > 0
  {
    if n == 0 then Found([], [])
    else Noted(Sequential(o, maxSlots, n - 1), o(n - 1), PlaceAt(n - 1, maxSlots))
  }

  /** The scan from the first record to the last. */
  function FullScan(t: Table, r: Reader): Found
    requires |t.bytes| == t.records * REC_BYTES && Ready(r)
  {
    Sequential(Readings(t, r), r.maxSlots, t.records)
  }

  // ------------------------------------------------------------ holes

  predicate ZeroBetween(t: Table, lo: nat, hi: nat) {
    forall b :: lo <= b < hi && b < |t.bytes| ==> t.bytes[b] == 0
  }

  lemma {:induction false} ZeroRecord(t: Table, r: Reader, i: nat)
    requires |t.bytes| == t.records * REC_BYTES && i < t.records && Ready(r)
    requires ZeroBetween(t, i * REC_BYTES, i * REC_BYTES + REC_BYTES)
    ensures Read(t, r, i) == Nothing
  {
    assert RecordBytes(t, i) == Zeros(REC_BYTES);
    ZerosAreNothing(r.crc, PlaceAt(i, r.maxSlots), r.granularity, r.extentBytes);
  }

  /** Skipping records that contribute nothing changes nothing. */
  lemma {:induction false} SkipNothing(o: nat -> Outcome, maxSlots: nat, lo: nat, hi: nat)
    requires maxSlots > 0 && lo <= hi && forall i: nat :: lo <= i < hi ==> o(i) == Nothing
    ensures Sequential(o, maxSlots, hi) == Sequential(o, maxSlots, lo)
  {
    if lo < hi { SkipNothing(o, maxSlots, lo, hi - 1); }
  }

  lemma {:induction false} SkipZeros(t: Table, r: Reader, lo: nat, hi: nat)
    requires |t.bytes| == t.records * REC_BYTES && lo <= hi <= t.records && Ready(r)
    requires ZeroBetween(t, lo * REC_BYTES, hi * REC_BYTES)
    ensures Sequential(Readings(t, r), r.maxSlots, hi) == Sequential(Readings(t, r), r.maxSlots, lo)
    ensures forall i: nat :: lo <= i < hi ==> Readings(t, r)(i) == Nothing
  {
    forall i: nat | lo <= i < hi ensures Readings(t, r)(i) == Nothing { ZeroRecord(t, r, i); }
    SkipNothing(Readings(t, r), r.maxSlots, lo, hi);
  }

  /** The next data byte from `from` on, or the end of the table. */
  function NextData(t: Table, from: nat): (d: nat)
    requires from <= |t.bytes|
    ensures from <= d <= |t.bytes| && (d < |t.bytes| ==> !t.hole(d))
    ensures forall b :: from <= b < d ==> t.hole(b)
    decreases |t.bytes| - from
  {
    if from == |t.bytes| || !t.hole(from) then from else NextData(t, from + 1)
  }

  /** The next hole from `from` on; the end of the file counts as one. */
  function NextHole(t: Table, from: nat): (h: nat)
    requires from <= |t.bytes|
    ensures from <= h <= |t.bytes| && (h < |t.bytes| ==> t.hole(h))
    ensures forall b :: from <= b < h ==> !t.hole(b)
    decreases |t.bytes| - from
  {
    if from == |t.bytes| || t.hole(from) then from else NextHole(t, from + 1)
  }

  /** A table of written and cleared records reads back as what was written. */
  lemma {:induction false} ReadsBack(t: Table, r: Reader, written: map<nat, Record>, i: nat)
    requires |t.bytes| == t.records * REC_BYTES && Ready(r) && i < t.records
    requires i in written ==>
      InRange(written[i]) && r.crc(Body(written[i])) < U32 && RecordBytes(t, i) == Encode(written[i], r.crc)
    requires i !in written ==> RecordBytes(t, i) == Zeros(REC_BYTES)
    ensures var at := PlaceAt(i, r.maxSlots);
      Readings(t, r)(i) ==
        if i !in written || !written[i].valid then Nothing
        else if !GeometryOk(written[i].size, written[i].len, at.slot, r.granularity, r.extentBytes) then Rejected
        else Restored(RestoreEntry(written[i].key, written[i].size, at.extent, at.slot, written[i].len,
                                   written[i].until, written[i].ttl))
  {
    if i in written {
      RoundTrip(written[i], r.crc, PlaceAt(i, r.maxSlots), r.granularity, r.extentBytes);
    } else {
      ZerosAreNothing(r.crc, PlaceAt(i, r.maxSlots), r.granularity, r.extentBytes);
    }
  }

  // ------------------------------------------------------------ scans

  /** Reads a range of whole records chunk by chunk. */
  method ScanRange(o: nat -> Outcome, maxSlots: nat, lo: nat, hi: nat, chunk: nat, f: Found) returns (g: Found)
    requires maxSlots > 0 && lo <= hi && chunk > 0 && f == Sequential(o, maxSlots, lo)
    ensures g == Sequential(o, maxSlots, hi)
  {
    g := f;
    var i := lo;
    while i < hi
      invariant lo <= i <= hi && g == Sequential(o, maxSlots, i)
      decreases hi - i
    {
      var n := if chunk < hi - i then chunk else hi - i;
      for pos := 0 to n
        invariant g == Sequential(o, maxSlots, i + pos)
      {
        g := Noted(g, o(i + pos), PlaceAt(i + pos, maxSlots));
      }
      i := i + n;
    }
  }

  datatype ScanResult = Complete(found: Found) | Unsupported

  ghost predicate Ascending(v: seq<nat>) {
    forall a, b :: 0 <= a < b < |v| ==> v[a] < v[b]
  }

  /** `v` lists records below `n`, none twice, and every one that contributes something. */
  ghost predicate Visits(o: nat -> Outcome, v: seq<nat>, n: nat) {
    && Ascending(v) && (forall a :: 0 <= a < |v| ==> v[a] < n)
    && forall i: nat :: i < n && o(i) != Nothing ==> i in v
  }

  function Range(lo: nat, hi: nat): (v: seq<nat>)
    requires lo <= hi
    ensures |v| == hi - lo && forall a :: 0 <= a < |v| ==> v[a] == lo + a
  {
    seq(hi - lo, i => lo + i)
  }

  lemma {:induction false} VisitsMore(o: nat -> Outcome, v: seq<nat>, n: nat, lo: nat, hi: nat)
    requires Visits(o, v, n) && n <= lo <= hi && forall i: nat :: n <= i < lo ==> o(i) == Nothing
    ensures Visits(o, v + Range(lo, hi), hi)
  {
    forall i: nat | i < hi && o(i) != Nothing ensures i in v + Range(lo, hi) {
      if lo <= i { assert Range(lo, hi)[i - lo] == i; }
    }
  }

  /** The SEEK_DATA / SEEK_HOLE walk. `seeks` says which seek calls the file system supports.
      `visited` collects the records read. */
  method SparseWalk(t: Table, r: Reader, chunk: nat, seeks: nat -> bool)
    returns (res: ScanResult, ghost visited: seq<nat>)
    requires Sparse(t) && Ready(r) && chunk > 0
    ensures res.Complete? ==> res.found == FullScan(t, r)
    ensures Ascending(visited)
    ensures res.Complete? ==> Visits(Readings(t, r), visited, t.records)
    ensures (forall i :: seeks(i)) ==> res.Complete?
  {
    var o := Readings(t, r);
    var cursor: nat, scanned: nat, calls := 0, 0, 0;
    var f := Found([], []);
    visited := [];
    while cursor < |t.bytes|
      invariant cursor <= |t.bytes| && scanned <= t.records && f == Sequential(o, r.maxSlots, scanned)
      invariant ZeroBetween(t, scanned * REC_BYTES, cursor)
      invariant Visits(o, visited, scanned)
      decreases |t.bytes| - cursor
    {
      if !seeks(calls) { return Unsupported, visited; }
      var data := NextData(t, cursor);
      if data == |t.bytes| {
        SkipZeros(t, r, scanned, t.records);
        return Complete(f), visited;
      }
      if !seeks(calls + 1) { return Unsupported, visited; }
      calls := calls + 2;
      var hole := NextHole(t, data);
      var begin := if data / REC_BYTES > scanned then data / REC_BYTES else scanned;
      var end := (hole + REC_BYTES - 1) / REC_BYTES;
      assert end <= t.records;
      if begin < end {
        SkipZeros(t, r, scanned, begin);
        f := ScanRange(o, r.maxSlots, begin, end, chunk, f);
        VisitsMore(o, visited, scanned, begin, end);
        visited := visited + Range(begin, end);
        scanned := end;
      }
      cursor := hole;
    }
    SkipZeros(t, r, scanned, t.records);
    return Complete(f), visited;
  }

  /** The rebuild scan: a file system that rejects a seek costs a fresh sequential pass, never
      a different result. */
  method Scan(t: Table, r: Reader, chunk: nat, seeks: nat -> bool) returns (found: Found)
    requires Sparse(t) && Ready(r) && chunk > 0
    ensures found == FullScan(t, r)
  {
    var res;
    ghost var visited;
    res, visited := SparseWalk(t, r, chunk, seeks);
    if res.Unsupported? {
      found := ScanRange(Readings(t, r), r.maxSlots, 0, t.records, chunk, Found([], []));
    } else {
      found := res.found;
    }
  }
}
