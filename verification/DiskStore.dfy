/** The disk store's PUT / GET / REMOVE protocol. The store mutex is never held across
    payload I/O, so a PUT is reserve-and-pin, unlocked payload write, record write,
    commit; a read is acquire, unlocked pread, release. Each function below is one
    critical section or one I/O, and `Apply` lets them interleave freely. */
module DiskStore {
  import opened Types
  import opened Lifecycle
  import opened Sums

  /** One slots.tbl record. A zeroed record is a position absent from the table. */
  datatype Rec = Rec(key: BlockKey, size: nat, len: nat, valid: bool)

  datatype Phase = Reserved | Written | Recorded | Failed

  /** A PUT leader between its reservation and its commit. */
  datatype PutOp = PutOp(key: BlockKey, data: seq<Byte>, ref: SlotRef, phase: Phase)

  /** A reader between acquire and release. `promised` is a history variable: the value
      that was committed for the key when the reader acquired it. */
  datatype ReadOp = ReadOp(key: BlockKey, ref: SlotRef, len: nat, promised: seq<Byte>)

  /** `view` is the allocator, `media` the extent files, `committed` the map payload_len_.
      `values` is a history variable: the bytes of the PUT that committed each key. */
  datatype Store = Store(
    extentBytes: nat,
    view: View,
    media: seq<seq<Byte>>,
    table: map<Place, Rec>,
    committed: map<BlockKey, nat>,
    inflight: map<BlockKey, nat>,
    deferred: set<BlockKey>,
    flights: map<BlockKey, nat>,
    writers: map<nat, PutOp>,
    readers: map<nat, ReadOp>,
    values: map<BlockKey, seq<Byte>>,
    healthy: bool)

  // ------------------------------------------------------------ media access

  function Overwrite(file: seq<Byte>, offset: nat, bytes: seq<Byte>): seq<Byte>
    requires offset + |bytes| <= |file|
  {
    file[..offset] + bytes + file[offset + |bytes|..]
  }

  predicate InMedia(media: seq<seq<Byte>>, ref: SlotRef) {
    ref.extent < |media| && ref.offset + ref.size <= |media[ref.extent]|
  }

  /** What a pread of the first `len` bytes of a slot returns. */
  function Slice(media: seq<seq<Byte>>, ref: SlotRef, len: nat): seq<Byte>
    requires InMedia(media, ref) && len <= ref.size
  {
    media[ref.extent][ref.offset..ref.offset + len]
  }

  function Pwrite(media: seq<seq<Byte>>, ref: SlotRef, bytes: seq<Byte>): seq<seq<Byte>>
    requires InMedia(media, ref) && |bytes| <= ref.size
  {
    media[ref.extent := Overwrite(media[ref.extent], ref.offset, bytes)]
  }

  /** A write to one slot is invisible through every other slot, and the written
      bytes are read back. */
  lemma PwriteSlice(media: seq<seq<Byte>>, ref: SlotRef, bytes: seq<Byte>, other: SlotRef, len: nat)
    requires InMedia(media, ref) && |bytes| <= ref.size
    requires InMedia(media, other) && len <= other.size
    ensures InMedia(Pwrite(media, ref, bytes), other)
    ensures !Overlap(ref, other) ==> Slice(Pwrite(media, ref, bytes), other, len) == Slice(media, other, len)
    ensures other == ref && len <= |bytes| ==> Slice(Pwrite(media, ref, bytes), ref, len) == bytes[..len]
  {
  }

  // ------------------------------------------------------------ steps

  datatype Step =
    | Reserve(t: nat, key: BlockKey, data: seq<Byte>, ref: SlotRef, evicted: set<BlockKey>, cleared: set<Place>)
    | ReserveFails(cleared: set<Place>, ok: bool)
    | Torn(t: nat, bytes: seq<Byte>)
    | WriteDone(t: nat, bytes: seq<Byte>)
    | WriteFails(t: nat)
    | RecordDone(t: nat)
    | RecordFails(t: nat)
    | Commit(t: nat, recordOk: bool)
    | Acquire(t: nat, key: BlockKey)
    | Release(t: nat, recordOk: bool)
    | Remove(key: BlockKey, recordOk: bool)
    | Reclaim(evicted: set<BlockKey>, cleared: set<Place>, ok: bool)
    | Retain(key: BlockKey, until: nat, recordOk: bool)
    | Expire(keys: set<BlockKey>, now: nat)
    | Fault

  function Count(m: map<BlockKey, nat>, k: BlockKey): nat {
    if k in m then m[k] else 0
  }

  function Placed(v: View, evicted: set<BlockKey>, k: BlockKey, ref: SlotRef): View {
    (v - evicted)[k := Resident(ref, 0, false, 0)]
  }

  function AfterReserve(s: Store, t: nat, k: BlockKey, data: seq<Byte>, ref: SlotRef,
                        evicted: set<BlockKey>, cleared: set<Place>): Store {
    s.(view := AfterPin(Placed(s.view, evicted, k, ref), k),
       table := s.table - cleared,
       inflight := s.inflight[k := Count(s.inflight, k) + 1],
       committed := s.committed - evicted,
       values := s.values - evicted,
       flights := s.flights[k := t],
       writers := s.writers[t := PutOp(k, data, ref, Reserved)])
  }

  function SetPhase(s: Store, t: nat, phase: Phase): Store
    requires t in s.writers
  {
    s.(writers := s.writers[t := s.writers[t].(phase := phase)])
  }

  function AfterWrite(s: Store, t: nat, bytes: seq<Byte>, phase: Phase): Store
    requires t in s.writers && InMedia(s.media, s.writers[t].ref) && |bytes| <= s.writers[t].ref.size
  {
    SetPhase(s, t, phase).(media := Pwrite(s.media, s.writers[t].ref, bytes))
  }

  /** The record goes out only while the store is healthy. */
  function AfterRecord(s: Store, t: nat): Store
    requires t in s.writers
  {
    var p := s.writers[t];
    if !s.healthy then SetPhase(s, t, Failed)
    else SetPhase(s, t, Recorded).(
           table := s.table[PlaceOf(p.ref) := Rec(p.key, p.ref.size, |p.data|, true)])
  }

  /** `w` differs from `s` only in what a release may touch. */
  predicate ReleaseFrame(s: Store, w: Store) {
    && w.readers == s.readers && w.writers == s.writers && w.flights == s.flights
    && w.media == s.media && w.extentBytes == s.extentBytes
    && w.values.Keys <= s.values.Keys
    && (forall k :: k in w.values ==> w.values[k] == s.values[k])
  }

  /** One pin and one in-flight count less. */
  function Unhold(s: Store, k: BlockKey): Store {
    s.(view := if k in s.view && s.view[k].refs > 0 then AfterUnpin(s.view, k) else s.view,
       inflight := if k !in s.inflight then s.inflight
                   else if s.inflight[k] > 1 then s.inflight[k := s.inflight[k] - 1]
                   else s.inflight - {k})
  }

  /** This release is the one that has to perform a removal deferred to it. */
  predicate Inherits(s: Store, k: BlockKey) {
    k in s.inflight && s.inflight[k] <= 1 && k in s.deferred
  }

  /** The deferred removal: durable invalidation first, then the physical removal. */
  function PerformRemoval(s: Store, k: BlockKey, recordOk: bool): (w: Store)
    ensures ReleaseFrame(s, w)
  {
    var found := Visible(s.view, k);
    var ok := s.healthy && recordOk;
    s.(deferred := s.deferred - {k},
       committed := s.committed - {k},
       values := s.values - {k},
       table := if found && ok then s.table[PlaceOf(s.view[k].ref) := Rec(k, s.view[k].ref.size, 0, false)]
                else s.table,
       view := if found && ok then AfterRemove(s.view, k) else s.view,
       healthy := s.healthy && (found ==> ok))
  }

  /** Drops one in-flight hold. The last releaser performs a removal that arrived while
      the key was held. */
  function AfterRelease(s: Store, k: BlockKey, recordOk: bool): (w: Store)
    ensures ReleaseFrame(s, w)
  {
    if Inherits(s, k) then PerformRemoval(Unhold(s, k), k, recordOk) else Unhold(s, k)
  }

  /** The release reports failure when the invalidation could not be written. */
  predicate ReleaseOk(s: Store, k: BlockKey, recordOk: bool) {
    !Inherits(s, k) || !Visible(Unhold(s, k).view, k) || (s.healthy && recordOk)
  }

  /** The leader's verdict after its release `r`: publish, roll back, or, when a removal
      arrived during the write and was executed by the release, neither. */
  function Conclude(r: Store, t: nat, p: PutOp, ioOk: bool, removed: bool): Store {
    var publish := !removed && ioOk && r.healthy;
    var rollBack := !removed && !(ioOk && r.healthy) && p.key in r.view;
    r.(flights := r.flights - {p.key},
       writers := r.writers - {t},
       view := if rollBack then AfterRemove(r.view, p.key) else r.view,
       committed := if publish then r.committed[p.key := |p.data|] else r.committed,
       values := if publish then r.values[p.key := p.data] else r.values)
  }

  /** Last critical section of a PUT leader. */
  function AfterCommit(s: Store, t: nat, recordOk: bool): Store
    requires t in s.writers
  {
    var p := s.writers[t];
    Conclude(AfterRelease(s, p.key, recordOk), t, p,
             p.phase == Recorded && ReleaseOk(s, p.key, recordOk), p.key in s.deferred)
  }

  function AfterAcquire(s: Store, t: nat, k: BlockKey): Store
    requires k in s.view && k in s.committed
  {
    s.(view := AfterPin(s.view, k),
       inflight := s.inflight[k := Count(s.inflight, k) + 1],
       readers := s.readers[t := ReadOp(k, s.view[k].ref, s.committed[k], if k in s.values then s.values[k] else [])])
  }

  /** Explicit removal: deferred while the key is in flight, otherwise invalidate the
      record and free the slot. */
  function AfterRemoveKey(s: Store, k: BlockKey, recordOk: bool): Store {
    var found := s.healthy && Visible(s.view, k);
    var defer := found && k in s.inflight;
    var now := found && k !in s.inflight && recordOk;
    s.(deferred := if defer then s.deferred + {k} else s.deferred,
       committed := if defer || now then s.committed - {k} else s.committed,
       values := if defer || now then s.values - {k} else s.values,
       table := if now then s.table[PlaceOf(s.view[k].ref) := Rec(k, s.view[k].ref.size, 0, false)] else s.table,
       view := if now then AfterRemove(s.view, k) else s.view,
       healthy := s.healthy && (found ==> defer || now))
  }

  function AfterReclaim(s: Store, evicted: set<BlockKey>, cleared: set<Place>, ok: bool): Store {
    s.(view := s.view - evicted,
       table := s.table - cleared,
       committed := s.committed - evicted,
       values := s.values - evicted,
       healthy := s.healthy && ok)
  }

  /** Only a committed key can be retained; its record is rewritten in place. */
  function AfterRetain(s: Store, k: BlockKey, until: nat, recordOk: bool): Store
    requires k in s.view && k in s.committed
  {
    var w := s.(view := s.view[k := s.view[k].(until := until)]);
    if s.healthy && recordOk then
      w.(table := s.table[PlaceOf(s.view[k].ref) := Rec(k, s.view[k].ref.size, s.committed[k], true)])
    else w.(healthy := false)
  }

  ghost predicate Enabled(s: Store, step: Step) {
    match step
    case Reserve(t, k, data, ref, evicted, cleared) =>
      && s.healthy && data != []
      && k !in s.committed && k !in s.flights && k !in s.deferred && k !in s.view
      && t !in s.writers
      && AllEvictable(s.view, evicted)
      && ClearsOnlyGone(s.view, evicted, cleared)
      && Laid(Placed(s.view, evicted, k, ref), s.extentBytes)
      && |data| <= ref.size && ref.extent < |s.media|
    case ReserveFails(cleared, ok) => s.healthy && ClearsOnlyGone(s.view, {}, cleared)
    case Torn(t, bytes) =>
      && t in s.writers && s.writers[t].phase == Reserved
      && InMedia(s.media, s.writers[t].ref) && |bytes| <= s.writers[t].ref.size
    case WriteDone(t, bytes) =>
      && t in s.writers && s.writers[t].phase == Reserved
      && InMedia(s.media, s.writers[t].ref)
      && s.writers[t].data <= bytes && |bytes| <= s.writers[t].ref.size
    case WriteFails(t) => t in s.writers && s.writers[t].phase == Reserved
    case RecordDone(t) => t in s.writers && s.writers[t].phase == Written
    case RecordFails(t) => t in s.writers && s.writers[t].phase == Written
    case Commit(t, _) => t in s.writers && (s.writers[t].phase == Recorded || s.writers[t].phase == Failed)
    case Acquire(t, k) => s.healthy && t !in s.readers && k in s.committed && Visible(s.view, k)
    case Release(t, _) => t in s.readers
    case Remove(_, _) => true
    case Reclaim(evicted, cleared, _) =>
      AllEvictable(s.view, evicted) && ClearsOnlyGone(s.view, evicted, cleared)
    case Retain(k, until, _) =>
      s.healthy && k in s.committed && Visible(s.view, k) && s.view[k].until <= until
    case Expire(keys, now) => forall k | k in keys :: k in s.view && 0 < s.view[k].until <= now
    case Fault => true
  }

  ghost function Apply(s: Store, step: Step): Store
    requires Enabled(s, step)
  {
    match step
    case Reserve(t, k, data, ref, evicted, cleared) => AfterReserve(s, t, k, data, ref, evicted, cleared)
    case ReserveFails(cleared, ok) => s.(table := s.table - cleared, healthy := ok)
    case Torn(t, bytes) => AfterWrite(s, t, bytes, Reserved)
    case WriteDone(t, bytes) => AfterWrite(s, t, bytes, Written)
    case WriteFails(t) => SetPhase(s, t, Failed)
    case RecordDone(t) => AfterRecord(s, t)
    case RecordFails(t) => SetPhase(s, t, Failed).(healthy := false)
    case Commit(t, recordOk) => AfterCommit(s, t, recordOk)
    case Acquire(t, k) => AfterAcquire(s, t, k)
    case Release(t, recordOk) =>
      AfterRelease(s, s.readers[t].key, recordOk).(readers := s.readers - {t})
    case Remove(k, recordOk) => AfterRemoveKey(s, k, recordOk)
    case Reclaim(evicted, cleared, ok) => AfterReclaim(s, evicted, cleared, ok)
    case Retain(k, until, recordOk) => AfterRetain(s, k, until, recordOk)
    case Expire(keys, now) =>
      s.(view := map k | k in s.view :: if k in keys then s.view[k].(until := 0) else s.view[k])
    case Fault => s.(healthy := false)
  }

  // ------------------------------------------------------------ invariant

  function ReaderOf(k: BlockKey): ReadOp -> int {
    (r: ReadOp) => if r.key == k then 1 else 0
  }

  ghost function Readers(readers: map<nat, ReadOp>, k: BlockKey): int {
    Sum(readers, ReaderOf(k))
  }

  predicate RecordedAt(table: map<Place, Rec>, ref: SlotRef, k: BlockKey, len: nat) {
    PlaceOf(ref) in table && table[PlaceOf(ref)] == Rec(k, ref.size, len, true)
  }

  predicate HoldsBytes(media: seq<seq<Byte>>, ref: SlotRef, bytes: seq<Byte>) {
    InMedia(media, ref) && |bytes| <= ref.size && Slice(media, ref, |bytes|) == bytes
  }

  /** A resident lies in the media and never waits inside the allocator; its pin count is
      its in-flight count, which is its readers plus its writer. On a healthy store it is
      committed, being written or waiting for a deferred removal. */
  ghost predicate KeyOk(s: Store, k: BlockKey) {
    && Count(s.inflight, k) == Readers(s.readers, k) + (if k in s.flights then 1 else 0)
    && (k in s.inflight ==> s.inflight[k] > 0 && k in s.view)
    && (k in s.view ==>
          && InMedia(s.media, s.view[k].ref)
          && !s.view[k].pending
          && s.view[k].refs == Count(s.inflight, k)
          && (s.healthy ==> k in s.committed || k in s.flights || k in s.deferred))
    && (k in s.deferred ==> k in s.inflight && k !in s.committed)
    && (k in s.flights ==>
          && s.flights[k] in s.writers && s.writers[s.flights[k]].key == k
          && k in s.view && k !in s.committed && Readers(s.readers, k) == 0)
  }

  /** A committed key holds the bytes of the PUT that committed it, and its record. */
  ghost predicate CommitOk(s: Store, k: BlockKey) {
    && (k in s.values <==> k in s.committed)
    && (k in s.committed ==>
          && k in s.view
          && |s.values[k]| == s.committed[k]
          && HoldsBytes(s.media, s.view[k].ref, s.values[k])
          && (s.healthy ==> RecordedAt(s.table, s.view[k].ref, k, s.committed[k])))
  }

  /** One leader per key, on its own slot, which holds its data once written. */
  ghost predicate WriterOk(s: Store, t: nat) {
    t in s.writers ==>
      var p := s.writers[t];
      && p.key in s.flights && s.flights[p.key] == t
      && p.key in s.view && s.view[p.key].ref == p.ref
      && |p.data| <= p.ref.size
      && (p.phase == Written || p.phase == Recorded ==> HoldsBytes(s.media, p.ref, p.data))
      && (s.healthy && p.phase == Recorded ==> RecordedAt(s.table, p.ref, p.key, |p.data|))
      && (s.healthy && p.phase != Recorded && PlaceOf(p.ref) in s.table ==> !s.table[PlaceOf(p.ref)].valid)
  }

  /** A reader's slot holds the value it was promised. */
  ghost predicate ReaderOk(s: Store, t: nat) {
    t in s.readers ==>
      var r := s.readers[t];
      && r.key in s.view && s.view[r.key].ref == r.ref
      && |r.promised| == r.len
      && HoldsBytes(s.media, r.ref, r.promised)
  }

  /** On a healthy store a valid record names the resident of its position. */
  ghost predicate RecordOk(s: Store, p: Place) {
    s.healthy && p in s.table && s.table[p].valid ==>
      && s.table[p].key in s.view
      && PlaceOf(s.view[s.table[p].key].ref) == p
      && s.view[s.table[p].key].ref.size == s.table[p].size
  }

  ghost predicate FileOk(s: Store, e: nat) {
    e < |s.media| ==> |s.media[e]| == s.extentBytes
  }

  ghost predicate Inv(s: Store) {
    && Laid(s.view, s.extentBytes)
    && (forall e :: FileOk(s, e))
    && (forall k :: KeyOk(s, k))
    && (forall k :: CommitOk(s, k))
    && (forall t :: WriterOk(s, t))
    && (forall t :: ReaderOk(s, t))
    && (forall p :: RecordOk(s, p))
  }
}
