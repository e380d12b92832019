/** Every step of the disk store protocol keeps its invariant, so every reader of every
    run reads exactly the bytes it was promised. */
module DiskStoreSafety {
  import opened Types
  import opened Lifecycle
  import opened Sums
  import opened DiskStore

  /** Dropping residents, or changing anything but their placement, keeps the layout. */
  lemma {:induction false} LaidSubset(v: View, w: View, extentBytes: nat)
    requires Laid(v, extentBytes)
    requires forall k :: k in w ==> k in v && w[k].ref == v[k].ref
    ensures Laid(w, extentBytes)
  {
    forall j ensures InExtent(w, extentBytes, j) { assert InExtent(v, extentBytes, j); }
    forall i, j ensures Apart(w, i, j) { assert Apart(v, i, j); }
  }

  // ------------------------------------------------------------ PUT

  /** The slot handed out by the allocator carries no valid record. */
  lemma {:induction false} FreshSlotUnrecorded(s: Store, t: nat, k: BlockKey, data: seq<Byte>, ref: SlotRef,
                            evicted: set<BlockKey>, cleared: set<Place>)
    requires Inv(s) && Enabled(s, Reserve(t, k, data, ref, evicted, cleared))
    ensures PlaceOf(ref) in s.table - cleared ==> !s.table[PlaceOf(ref)].valid
  {
    var p := PlaceOf(ref);
    assert RecordOk(s, p);
    assert p in s.table ==> Apart(Placed(s.view, evicted, k, ref), k, s.table[p].key);
  }

  lemma {:induction false} ReserveKey(s: Store, step: Step, j: BlockKey)
    requires Inv(s) && step.Reserve? && Enabled(s, step)
    ensures KeyOk(Apply(s, step), j)
  {
    assert KeyOk(s, j);
    assert InExtent(Placed(s.view, step.evicted, step.key, step.ref), s.extentBytes, j);
    assert FileOk(s, step.ref.extent);
  }

  lemma {:induction false} ReserveWriter(s: Store, step: Step, x: nat)
    requires Inv(s) && step.Reserve? && Enabled(s, step)
    ensures WriterOk(Apply(s, step), x)
  {
    assert WriterOk(s, x);
    if x in s.writers { assert KeyOk(s, s.writers[x].key); }
    FreshSlotUnrecorded(s, step.t, step.key, step.data, step.ref, step.evicted, step.cleared);
  }

  lemma {:induction false} ReserveReader(s: Store, step: Step, x: nat)
    requires Inv(s) && step.Reserve? && Enabled(s, step)
    ensures ReaderOk(Apply(s, step), x)
  {
    assert ReaderOk(s, x);
    if x in s.readers { ReaderCounted(s, x); assert KeyOk(s, s.readers[x].key); }
  }

  /** A reservation evicts nobody who is held and takes a slot nobody else uses. */
  lemma {:induction false} ReserveKeeps(s: Store, step: Step)
    requires Inv(s) && step.Reserve? && Enabled(s, step)
    ensures Inv(Apply(s, step))
  {
    var u := Apply(s, step);
    LaidSubset(Placed(s.view, step.evicted, step.key, step.ref), u.view, s.extentBytes);
    forall e ensures FileOk(u, e) { assert FileOk(s, e); }
    forall j ensures KeyOk(u, j) { ReserveKey(s, step, j); }
    forall j ensures CommitOk(u, j) { assert CommitOk(s, j); }
    forall x ensures WriterOk(u, x) { ReserveWriter(s, step, x); }
    forall x ensures ReaderOk(u, x) { ReserveReader(s, step, x); }
    forall p ensures RecordOk(u, p) { assert RecordOk(s, p); }
  }

  lemma {:induction false} ReaderCounted(s: Store, t: nat)
    requires t in s.readers
    ensures Readers(s.readers, s.readers[t].key) >= 1
  {
    var f := ReaderOf(s.readers[t].key);
    SumRemove(s.readers, t, f);
    SumNonNegative(s.readers - {t}, f);
  }

  lemma {:induction false} WriteElsewhere(s: Store, k: BlockKey, j: BlockKey, a: SlotRef, b: SlotRef, bytes: seq<Byte>,
                                          data: seq<Byte>)
    requires Laid(s.view, s.extentBytes) && k in s.view && j in s.view && j != k
    requires a == s.view[k].ref && b == s.view[j].ref
    requires InMedia(s.media, a) && |bytes| <= a.size
    requires HoldsBytes(s.media, b, data)
    ensures HoldsBytes(Pwrite(s.media, a, bytes), b, data)
  {
    ResidentsDisjoint(s.view, s.extentBytes, k, j);
    PwriteSlice(s.media, a, bytes, b, |data|);
  }

  lemma {:induction false} WriteReadBack(media: seq<seq<Byte>>, ref: SlotRef, bytes: seq<Byte>, data: seq<Byte>)
    requires InMedia(media, ref) && |bytes| <= ref.size && data <= bytes
    ensures HoldsBytes(Pwrite(media, ref, bytes), ref, data)
  {
    PwriteSlice(media, ref, bytes, ref, |data|);
  }

  lemma {:induction false} WriteOwner(s: Store, t: nat, bytes: seq<Byte>, phase: Phase)
    requires t in s.writers && WriterOk(s, t) && s.writers[t].phase == Reserved
    requires InMedia(s.media, s.writers[t].ref) && |bytes| <= s.writers[t].ref.size
    requires phase == Reserved || (phase == Written && s.writers[t].data <= bytes)
    ensures WriterOk(AfterWrite(s, t, bytes, phase), t)
  {
    if phase == Written { WriteReadBack(s.media, s.writers[t].ref, bytes, s.writers[t].data); }
  }

  lemma {:induction false} WriteOther(s: Store, t: nat, bytes: seq<Byte>, phase: Phase, x: nat)
    requires t in s.writers && WriterOk(s, t) && WriterOk(s, x) && x != t
    requires Laid(s.view, s.extentBytes)
    requires InMedia(s.media, s.writers[t].ref) && |bytes| <= s.writers[t].ref.size
    ensures WriterOk(AfterWrite(s, t, bytes, phase), x)
  {
    if x in s.writers {
      var p, q := s.writers[t], s.writers[x];
      assert p.key != q.key;
      if q.phase == Written || q.phase == Recorded {
        WriteElsewhere(s, p.key, q.key, p.ref, q.ref, bytes, q.data);
      }
      var u := AfterWrite(s, t, bytes, phase);
      assert u.writers[x] == q;
    }
  }

  lemma {:induction false} WriteReader(s: Store, t: nat, bytes: seq<Byte>, phase: Phase, x: nat)
    requires Inv(s) && t in s.writers
    requires InMedia(s.media, s.writers[t].ref) && |bytes| <= s.writers[t].ref.size
    ensures ReaderOk(AfterWrite(s, t, bytes, phase), x)
  {
    var p := s.writers[t];
    assert WriterOk(s, t) && KeyOk(s, p.key) && ReaderOk(s, x);
    if x in s.readers {
      ReaderCounted(s, x);
      WriteElsewhere(s, p.key, s.readers[x].key, p.ref, s.readers[x].ref, bytes, s.readers[x].promised);
    }
  }

  /** A payload write, torn or complete, is confined to the writer's own slot. */
  lemma {:induction false} WriteKeeps(s: Store, t: nat, bytes: seq<Byte>, phase: Phase)
    requires Inv(s)
    requires t in s.writers && s.writers[t].phase == Reserved
    requires InMedia(s.media, s.writers[t].ref) && |bytes| <= s.writers[t].ref.size
    requires phase == Reserved || (phase == Written && s.writers[t].data <= bytes)
    ensures Inv(AfterWrite(s, t, bytes, phase))
  {
    var p := s.writers[t];
    var u := AfterWrite(s, t, bytes, phase);
    assert WriterOk(s, t) && KeyOk(s, p.key);
    forall e ensures FileOk(u, e) { assert FileOk(s, e); }
    forall j ensures KeyOk(u, j) { assert KeyOk(s, j); }
    forall j ensures CommitOk(u, j) {
      assert CommitOk(s, j);
      if j in s.committed { WriteElsewhere(s, p.key, j, p.ref, s.view[j].ref, bytes, s.values[j]); }
    }
    forall x ensures WriterOk(u, x) {
      assert WriterOk(s, x);
      if x == t { WriteOwner(s, t, bytes, phase); } else { WriteOther(s, t, bytes, phase, x); }
    }
    forall x ensures ReaderOk(u, x) { WriteReader(s, t, bytes, phase, x); }
    forall q ensures RecordOk(u, q) { assert RecordOk(s, q); }
  }

  lemma {:induction false} RecordKeeps(s: Store, t: nat)
    requires Inv(s) && t in s.writers && s.writers[t].phase == Written
    ensures Inv(AfterRecord(s, t))
  {
    if !s.healthy {
      FailedKeeps(s, t, false);
      assert AfterRecord(s, t) == SetPhase(s, t, Failed).(healthy := s.healthy && false);
      return;
    }
    var p := s.writers[t];
    var u := AfterRecord(s, t);
    assert WriterOk(s, t) && KeyOk(s, p.key);
    forall e ensures FileOk(u, e) { assert FileOk(s, e); }
    forall j ensures KeyOk(u, j) { assert KeyOk(s, j); }
    forall j ensures CommitOk(u, j) { assert CommitOk(s, j) && Apart(s.view, p.key, j); }
    forall x ensures WriterOk(u, x) {
      assert WriterOk(s, x);
      if x in s.writers { assert Apart(s.view, p.key, s.writers[x].key); }
    }
    forall x ensures ReaderOk(u, x) { assert ReaderOk(s, x); }
    forall q ensures RecordOk(u, q) { assert RecordOk(s, q); }
  }

  lemma {:induction false} FailedKeeps(s: Store, t: nat, ok: bool)
    requires Inv(s) && t in s.writers
    requires s.writers[t].phase == Reserved || (s.writers[t].phase == Written && !ok)
    ensures Inv(SetPhase(s, t, Failed).(healthy := s.healthy && ok))
  {
    var u := SetPhase(s, t, Failed).(healthy := s.healthy && ok);
    forall e ensures FileOk(u, e) { assert FileOk(s, e); }
    forall k ensures KeyOk(u, k) { assert KeyOk(s, k); }
    forall k ensures CommitOk(u, k) { assert CommitOk(s, k); }
    forall x ensures WriterOk(u, x) { assert WriterOk(s, x); }
    forall x ensures ReaderOk(u, x) { assert ReaderOk(s, x); }
    forall p ensures RecordOk(u, p) { assert RecordOk(s, p); }
  }

  /** `u` is `s` without key `k` and its holders: the key leaves every map and its
      position carries no valid record any more. */
  ghost predicate Forgets(s: Store, u: Store, k: BlockKey) {
    && k in s.view
    && u == s.(view := s.view - {k}, table := u.table, inflight := s.inflight - {k},
               deferred := s.deferred - {k}, committed := s.committed - {k},
               values := s.values - {k}, flights := s.flights - {k},
               writers := u.writers, readers := u.readers)
    && (u.table == s.table[PlaceOf(s.view[k].ref) := Rec(k, s.view[k].ref.size, 0, false)]
        || (u.table == s.table
            && (s.healthy && PlaceOf(s.view[k].ref) in s.table ==> !s.table[PlaceOf(s.view[k].ref)].valid)))
    && (forall t :: KeepsWriter(s, u, k, t))
    && (forall t :: KeepsReader(s, u, k, t))
    && (forall j :: Readers(u.readers, j) == if j == k then 0 else Readers(s.readers, j))
  }

  ghost predicate KeepsWriter(s: Store, u: Store, k: BlockKey, t: nat) {
    && (t in u.writers <==> t in s.writers && s.writers[t].key != k)
    && (t in u.writers ==> u.writers[t] == s.writers[t])
  }

  ghost predicate KeepsReader(s: Store, u: Store, k: BlockKey, t: nat) {
    && (t in u.readers <==> t in s.readers && s.readers[t].key != k)
    && (t in u.readers ==> u.readers[t] == s.readers[t])
  }

  lemma {:induction false} ForgetKey(s: Store, u: Store, k: BlockKey, j: BlockKey)
    requires Inv(s) && Forgets(s, u, k)
    ensures KeyOk(u, j)
  {
    assert KeyOk(s, j);
    if j in s.flights { assert KeepsWriter(s, u, k, s.flights[j]); }
  }

  lemma {:induction false} ForgetCommit(s: Store, u: Store, k: BlockKey, j: BlockKey)
    requires Inv(s) && Forgets(s, u, k)
    ensures CommitOk(u, j)
  {
    assert CommitOk(s, j) && Apart(s.view, k, j);
  }

  lemma {:induction false} ForgetWriter(s: Store, u: Store, k: BlockKey, t: nat)
    requires Inv(s) && Forgets(s, u, k)
    ensures WriterOk(u, t)
  {
    assert WriterOk(s, t) && KeepsWriter(s, u, k, t);
    if t in u.writers { assert Apart(s.view, k, s.writers[t].key); }
  }

  lemma {:induction false} ForgetKeeps(s: Store, u: Store, k: BlockKey)
    requires Inv(s) && Forgets(s, u, k)
    ensures Inv(u)
  {
    LaidSubset(s.view, u.view, s.extentBytes);
    forall e ensures FileOk(u, e) { assert FileOk(s, e); }
    forall j ensures KeyOk(u, j) { ForgetKey(s, u, k, j); }
    forall j ensures CommitOk(u, j) { ForgetCommit(s, u, k, j); }
    forall x ensures WriterOk(u, x) { ForgetWriter(s, u, k, x); }
    forall x ensures ReaderOk(u, x) { assert ReaderOk(s, x) && KeepsReader(s, u, k, x); }
    forall q ensures RecordOk(u, q) { assert RecordOk(s, q); }
  }

  /** The writer is the only holder of its key. */
  predicate Lone(s: Store, t: nat) {
    && t in s.writers
    && var k := s.writers[t].key;
       && k in s.view && s.view[k].refs == 1 && !s.view[k].pending
       && k in s.inflight && s.inflight[k] == 1
       && k !in s.committed && k !in s.values
  }

  lemma {:induction false} LoneWriter(s: Store, t: nat)
    requires Inv(s) && t in s.writers
    ensures Lone(s, t) && Readers(s.readers, s.writers[t].key) == 0
    ensures forall x :: x in s.writers && s.writers[x].key == s.writers[t].key ==> x == t
    ensures forall x :: x in s.readers ==> s.readers[x].key != s.writers[t].key
  {
    var k := s.writers[t].key;
    assert WriterOk(s, t) && KeyOk(s, k) && CommitOk(s, k);
    forall x ensures x in s.writers && s.writers[x].key == k ==> x == t { assert WriterOk(s, x); }
    forall x | x in s.readers ensures s.readers[x].key != k { ReaderCounted(s, x); }
  }

  lemma {:induction false} CommitKeeps(s: Store, t: nat, recordOk: bool)
    requires Inv(s) && Enabled(s, Commit(t, recordOk))
    ensures Inv(AfterCommit(s, t, recordOk))
  {
    var p := s.writers[t];
    assert WriterOk(s, t) && KeyOk(s, p.key);
    if p.key in s.deferred && (!s.healthy || !recordOk) {
      UnpublishedKeeps(s, t, recordOk);
    } else if p.key !in s.deferred && p.phase == Recorded && s.healthy {
      PublishKeeps(s, t, recordOk);
    } else {
      AbandonKeeps(s, t, recordOk);
    }
  }

  function Abandoned(s: Store, t: nat): Store
    requires t in s.writers && s.writers[t].key in s.view
  {
    var k := s.writers[t].key;
    s.(view := s.view - {k}, inflight := s.inflight - {k}, deferred := s.deferred - {k},
       flights := s.flights - {k}, writers := s.writers - {t},
       table := if k in s.deferred then s.table[PlaceOf(s.view[k].ref) := Rec(k, s.view[k].ref.size, 0, false)]
                else s.table)
  }

  lemma {:induction false} AbandonForm(s: Store, t: nat, recordOk: bool)
    requires Lone(s, t)
    requires if s.writers[t].key in s.deferred then s.healthy && recordOk
             else s.writers[t].phase != Recorded || !s.healthy
    ensures AfterCommit(s, t, recordOk) == Abandoned(s, t)
  {
    var k := s.writers[t].key;
    assert Unhold(s, k).inflight == s.inflight - {k};
    assert AfterRemove(Unhold(s, k).view, k) == s.view - {k};
    if k in s.deferred {
      assert Visible(Unhold(s, k).view, k);
      assert s.committed - {k} == s.committed && s.values - {k} == s.values;
    } else {
      assert s.deferred - {k} == s.deferred;
    }
  }

  lemma {:induction false} AbandonForgets(s: Store, t: nat)
    requires Inv(s) && Lone(s, t) && Readers(s.readers, s.writers[t].key) == 0
    requires s.writers[t].key in s.deferred || s.writers[t].phase != Recorded || !s.healthy
    requires forall x :: x in s.writers && s.writers[x].key == s.writers[t].key ==> x == t
    requires forall x :: x in s.readers ==> s.readers[x].key != s.writers[t].key
    ensures Forgets(s, Abandoned(s, t), s.writers[t].key)
  {
    var k, u := s.writers[t].key, Abandoned(s, t);
    assert WriterOk(s, t);
    assert s.committed - {k} == s.committed && s.values - {k} == s.values;
    forall x ensures KeepsWriter(s, u, k, x) {}
    forall x ensures KeepsReader(s, u, k, x) {}
  }

  /** A failed PUT, or one removed while it was being written, leaves no trace. */
  lemma {:induction false} AbandonKeeps(s: Store, t: nat, recordOk: bool)
    requires Inv(s) && t in s.writers
    requires if s.writers[t].key in s.deferred then s.healthy && recordOk
             else s.writers[t].phase != Recorded || !s.healthy
    ensures Inv(AfterCommit(s, t, recordOk))
  {
    var k := s.writers[t].key;
    LoneWriter(s, t);
    AbandonForm(s, t, recordOk);
    AbandonForgets(s, t);
    ForgetKeeps(s, Abandoned(s, t), k);
  }

  /** The leader lets go of its key: one pin, one hold and the flight are gone. */
  function LetGo(s: Store, t: nat): Store
    requires t in s.writers && s.writers[t].key in s.view
  {
    var k := s.writers[t].key;
    s.(view := s.view[k := s.view[k].(refs := 0)], inflight := s.inflight - {k},
       flights := s.flights - {k}, writers := s.writers - {t})
  }

  lemma {:induction false} PublishForm(s: Store, t: nat, recordOk: bool)
    requires Lone(s, t) && s.writers[t].key !in s.deferred && s.healthy && s.writers[t].phase == Recorded
    ensures var p := s.writers[t];
            AfterCommit(s, t, recordOk) ==
              LetGo(s, t).(committed := s.committed[p.key := |p.data|], values := s.values[p.key := p.data])
  {
    var k := s.writers[t].key;
    assert !Inherits(s, k);
    assert Unhold(s, k).view == LetGo(s, t).view;
  }

  lemma {:induction false} UnpublishForm(s: Store, t: nat, recordOk: bool)
    requires Lone(s, t) && s.writers[t].key in s.deferred && (!s.healthy || !recordOk)
    ensures AfterCommit(s, t, recordOk)
         == LetGo(s, t).(deferred := s.deferred - {s.writers[t].key}, healthy := false)
  {
    var k := s.writers[t].key;
    assert Inherits(s, k) && Visible(Unhold(s, k).view, k);
    assert Unhold(s, k).view == LetGo(s, t).view;
    assert s.committed - {k} == s.committed && s.values - {k} == s.values;
  }

  lemma {:induction false} LetGoLaid(s: Store, t: nat)
    requires Inv(s) && t in s.writers
    ensures s.writers[t].key in s.view && Laid(LetGo(s, t).view, s.extentBytes)
  {
    assert WriterOk(s, t);
    LaidSubset(s.view, LetGo(s, t).view, s.extentBytes);
  }

  /** The commit point: the key becomes readable with exactly the leader's bytes. */
  lemma {:induction false} PublishKeeps(s: Store, t: nat, recordOk: bool)
    requires Inv(s) && t in s.writers && s.writers[t].phase == Recorded && s.healthy
    requires s.writers[t].key !in s.deferred
    ensures Inv(AfterCommit(s, t, recordOk))
  {
    var p := s.writers[t];
    LoneWriter(s, t);
    LetGoLaid(s, t);
    PublishForm(s, t, recordOk);
    assert WriterOk(s, t);
    var u := LetGo(s, t).(committed := s.committed[p.key := |p.data|], values := s.values[p.key := p.data]);
    forall e ensures FileOk(u, e) { assert FileOk(s, e); }
    forall j ensures KeyOk(u, j) { assert KeyOk(s, j); }
    forall j ensures CommitOk(u, j) { assert CommitOk(s, j); }
    forall x ensures WriterOk(u, x) { assert WriterOk(s, x); }
    forall x ensures ReaderOk(u, x) { assert ReaderOk(s, x); }
    forall q ensures RecordOk(u, q) { assert RecordOk(s, q); }
  }

  /** A deferred removal whose invalidation cannot be written leaves the store unhealthy. */
  lemma {:induction false} UnpublishedKeeps(s: Store, t: nat, recordOk: bool)
    requires Inv(s) && t in s.writers && s.writers[t].key in s.deferred
    requires !s.healthy || !recordOk
    ensures Inv(AfterCommit(s, t, recordOk))
  {
    var k := s.writers[t].key;
    LoneWriter(s, t);
    LetGoLaid(s, t);
    UnpublishForm(s, t, recordOk);
    var u := LetGo(s, t).(deferred := s.deferred - {k}, healthy := false);
    forall e ensures FileOk(u, e) { assert FileOk(s, e); }
    forall j ensures KeyOk(u, j) { assert KeyOk(s, j); }
    forall j ensures CommitOk(u, j) { assert CommitOk(s, j); }
    forall x ensures WriterOk(u, x) { assert WriterOk(s, x); }
    forall x ensures ReaderOk(u, x) { assert ReaderOk(s, x); }
    forall q ensures RecordOk(u, q) { assert RecordOk(s, q); }
  }

  // ------------------------------------------------------------ GET

  lemma {:induction false} AcquireKeeps(s: Store, t: nat, k: BlockKey)
    requires Inv(s) && Enabled(s, Acquire(t, k))
    ensures Inv(AfterAcquire(s, t, k))
  {
    var u := AfterAcquire(s, t, k);
    assert KeyOk(s, k) && CommitOk(s, k);
    forall e ensures FileOk(u, e) { assert FileOk(s, e); }
    LaidSubset(s.view, u.view, s.extentBytes);
    forall j ensures KeyOk(u, j) {
      assert KeyOk(s, j);
      SumAdd(s.readers, t, u.readers[t], ReaderOf(j));
    }
    forall j ensures CommitOk(u, j) { assert CommitOk(s, j); }
    forall x ensures WriterOk(u, x) { assert WriterOk(s, x); }
    forall x ensures ReaderOk(u, x) { assert ReaderOk(s, x); }
    forall q ensures RecordOk(u, q) { assert RecordOk(s, q); }
  }

  lemma {:induction false} ReleaseKeeps(s: Store, t: nat, recordOk: bool)
    requires Inv(s) && t in s.readers
    ensures Inv(AfterRelease(s, s.readers[t].key, recordOk).(readers := s.readers - {t}))
  {
    var k := s.readers[t].key;
    assert ReaderOk(s, t) && KeyOk(s, k);
    ReaderCounted(s, t);
    if s.inflight[k] == 1 && k in s.deferred && s.healthy && recordOk {
      ReleaseRemoves(s, t);
    } else {
      ReleaseLowers(s, t, recordOk);
    }
  }

  lemma {:induction false} OneReaderLess(s: Store, t: nat, j: BlockKey)
    requires t in s.readers
    ensures Readers(s.readers - {t}, j) == Readers(s.readers, j) - (if j == s.readers[t].key then 1 else 0)
  {
    SumRemove(s.readers, t, ReaderOf(j));
  }

  /** The last reader of a key removed meanwhile performs the removal. */
  lemma {:induction false} ReleaseRemoves(s: Store, t: nat)
    requires Inv(s) && t in s.readers && s.healthy
    requires Count(s.inflight, s.readers[t].key) == 1 && s.readers[t].key in s.deferred
    ensures Inv(AfterRelease(s, s.readers[t].key, true).(readers := s.readers - {t}))
  {
    var k := s.readers[t].key;
    var u := AfterRelease(s, k, true).(readers := s.readers - {t});
    assert ReaderOk(s, t) && KeyOk(s, k) && CommitOk(s, k);
    ReaderCounted(s, t);
    forall j ensures Readers(u.readers, j) == if j == k then 0 else Readers(s.readers, j) { OneReaderLess(s, t, j); }
    forall x | x in s.readers - {t} ensures s.readers[x].key != k { LastReader(s, t, x); }
    forall x | x in s.writers ensures s.writers[x].key != k { assert WriterOk(s, x); }
    assert s.flights - {k} == s.flights;
    assert u.view == s.view - {k};
    ForgetKeeps(s, u, k);
  }

  predicate Held(s: Store, t: nat) {
    && t in s.readers
    && var k := s.readers[t].key;
       && k in s.view && k in s.inflight && s.inflight[k] == s.view[k].refs > 0
       && !s.view[k].pending && k !in s.flights
       && (k in s.deferred ==> k !in s.committed && k !in s.values)
  }

  lemma {:induction false} HeldReader(s: Store, t: nat)
    requires Inv(s) && t in s.readers
    ensures Held(s, t)
  {
    assert ReaderOk(s, t) && KeyOk(s, s.readers[t].key) && CommitOk(s, s.readers[t].key);
    ReaderCounted(s, t);
  }

  /** Any other release only lowers the counts; a deferred removal whose invalidation
      fails leaves the store unhealthy. */
  function Unheld(s: Store, t: nat): Store
    requires Held(s, t)
  {
    var k := s.readers[t].key;
    var last := s.inflight[k] == 1;
    s.(view := s.view[k := s.view[k].(refs := s.view[k].refs - 1)],
       inflight := if last then s.inflight - {k} else s.inflight[k := s.inflight[k] - 1],
       deferred := if last then s.deferred - {k} else s.deferred,
       readers := s.readers - {t},
       healthy := s.healthy && !(last && k in s.deferred))
  }

  lemma {:induction false} UnholdForm(s: Store, t: nat)
    requires Held(s, t) && !Inherits(s, s.readers[t].key)
    ensures Unhold(s, s.readers[t].key).(readers := s.readers - {t}) == Unheld(s, t)
  {
    var k := s.readers[t].key;
    if k !in s.deferred { assert s.deferred - {k} == s.deferred; }
  }

  lemma {:induction false} FailedRemovalForm(s: Store, t: nat, recordOk: bool)
    requires Held(s, t) && Inherits(s, s.readers[t].key) && !(s.healthy && recordOk)
    ensures PerformRemoval(Unhold(s, s.readers[t].key), s.readers[t].key,
                           recordOk).(readers := s.readers - {t}) == Unheld(s, t)
  {
    var k := s.readers[t].key;
    assert Visible(Unhold(s, k).view, k);
    assert s.committed - {k} == s.committed && s.values - {k} == s.values;
  }

  lemma {:induction false} UnheldForm(s: Store, t: nat, recordOk: bool)
    requires Held(s, t)
    requires s.inflight[s.readers[t].key] != 1 || s.readers[t].key !in s.deferred || !s.healthy || !recordOk
    ensures AfterRelease(s, s.readers[t].key, recordOk).(readers := s.readers - {t}) == Unheld(s, t)
  {
    if Inherits(s, s.readers[t].key) { FailedRemovalForm(s, t, recordOk); } else { UnholdForm(s, t); }
  }

  lemma {:induction false} ReleaseLowers(s: Store, t: nat, recordOk: bool)
    requires Inv(s) && t in s.readers
    requires var k := s.readers[t].key;
             Count(s.inflight, k) != 1 || k !in s.deferred || !s.healthy || !recordOk
    ensures Inv(AfterRelease(s, s.readers[t].key, recordOk).(readers := s.readers - {t}))
  {
    HeldReader(s, t);
    UnheldForm(s, t, recordOk);
    var u := Unheld(s, t);
    LaidSubset(s.view, u.view, s.extentBytes);
    forall e ensures FileOk(u, e) { assert FileOk(s, e); }
    forall j ensures KeyOk(u, j) { assert KeyOk(s, j); OneReaderLess(s, t, j); }
    forall j ensures CommitOk(u, j) { assert CommitOk(s, j); }
    forall x ensures WriterOk(u, x) { assert WriterOk(s, x); }
    forall x ensures ReaderOk(u, x) { assert ReaderOk(s, x); }
    forall q ensures RecordOk(u, q) { assert RecordOk(s, q); }
  }

  lemma {:induction false} LastReader(s: Store, t: nat, x: nat)
    requires t in s.readers && x in s.readers && x != t
    ensures s.readers[x].key == s.readers[t].key ==> Readers(s.readers, s.readers[t].key) >= 2
  {
    if s.readers[x].key == s.readers[t].key {
      var f := ReaderOf(s.readers[t].key);
      SumRemove(s.readers, t, f);
      SumRemove(s.readers - {t}, x, f);
      SumNonNegative(s.readers - {t} - {x}, f);
    }
  }

  // ------------------------------------------------------------ REMOVE, reclaim, retention

  lemma {:induction false} RemoveKeeps(s: Store, k: BlockKey, recordOk: bool)
    requires Inv(s)
    ensures Inv(AfterRemoveKey(s, k, recordOk))
  {
    var u := AfterRemoveKey(s, k, recordOk);
    assert KeyOk(s, k) && CommitOk(s, k);
    if !s.healthy || !Visible(s.view, k) {
    } else if k in s.inflight {
      DeferKeeps(s, k);
    } else if recordOk {
      forall x | x in s.readers ensures s.readers[x].key != k { ReaderCounted(s, x); }
      forall x | x in s.writers ensures s.writers[x].key != k { assert WriterOk(s, x); }
      assert s.flights - {k} == s.flights && s.inflight - {k} == s.inflight && s.deferred - {k} == s.deferred;
      ForgetKeeps(s, u, k);
    } else {
      FaultKeeps(s);
    }
  }

  /** A removal that finds the key in flight hides it at once and defers the rest. */
  lemma {:induction false} DeferKeeps(s: Store, k: BlockKey)
    requires Inv(s) && k in s.inflight
    ensures Inv(s.(deferred := s.deferred + {k}, committed := s.committed - {k}, values := s.values - {k}))
  {
    var u := s.(deferred := s.deferred + {k}, committed := s.committed - {k}, values := s.values - {k});
    assert KeyOk(s, k);
    forall e ensures FileOk(u, e) { assert FileOk(s, e); }
    forall j ensures KeyOk(u, j) { assert KeyOk(s, j); }
    forall j ensures CommitOk(u, j) { assert CommitOk(s, j); }
    forall x ensures WriterOk(u, x) { assert WriterOk(s, x); }
    forall x ensures ReaderOk(u, x) { assert ReaderOk(s, x); }
    forall q ensures RecordOk(u, q) { assert RecordOk(s, q); }
  }

  lemma {:induction false} FaultKeeps(s: Store)
    requires Inv(s)
    ensures Inv(s.(healthy := false))
  {
    var u := s.(healthy := false);
    forall e ensures FileOk(u, e) { assert FileOk(s, e); }
    forall j ensures KeyOk(u, j) { assert KeyOk(s, j); }
    forall j ensures CommitOk(u, j) { assert CommitOk(s, j); }
    forall x ensures WriterOk(u, x) { assert WriterOk(s, x); }
    forall x ensures ReaderOk(u, x) { assert ReaderOk(s, x); }
    forall q ensures RecordOk(u, q) { assert RecordOk(s, q); }
  }

  lemma {:induction false} ReclaimKeeps(s: Store, evicted: set<BlockKey>, cleared: set<Place>, ok: bool)
    requires Inv(s) && AllEvictable(s.view, evicted) && ClearsOnlyGone(s.view, evicted, cleared)
    ensures Inv(AfterReclaim(s, evicted, cleared, ok))
  {
    var u := AfterReclaim(s, evicted, cleared, ok);
    forall e ensures FileOk(u, e) { assert FileOk(s, e); }
    LaidSubset(s.view, u.view, s.extentBytes);
    forall j ensures KeyOk(u, j) { assert KeyOk(s, j); }
    forall j ensures CommitOk(u, j) { assert CommitOk(s, j); }
    forall x ensures WriterOk(u, x) {
      assert WriterOk(s, x);
      if x in s.writers { assert KeyOk(s, s.writers[x].key); }
    }
    forall x ensures ReaderOk(u, x) {
      assert ReaderOk(s, x);
      if x in s.readers { ReaderCounted(s, x); assert KeyOk(s, s.readers[x].key); }
    }
    forall q ensures RecordOk(u, q) { assert RecordOk(s, q); }
  }

  /** Retention deadlines are none of the protocol's business. */
  lemma {:induction false} DeadlinesKeep(s: Store, v: View)
    requires Inv(s) && v.Keys == s.view.Keys
    requires forall k :: k in v ==> v[k] == s.view[k].(until := v[k].until)
    ensures Inv(s.(view := v))
  {
    var u := s.(view := v);
    LaidSubset(s.view, v, s.extentBytes);
    forall e ensures FileOk(u, e) { assert FileOk(s, e); }
    forall j ensures KeyOk(u, j) { assert KeyOk(s, j); }
    forall j ensures CommitOk(u, j) { assert CommitOk(s, j); }
    forall x ensures WriterOk(u, x) { assert WriterOk(s, x); }
    forall x ensures ReaderOk(u, x) { assert ReaderOk(s, x); }
    forall q ensures RecordOk(u, q) { assert RecordOk(s, q); }
  }

  lemma {:induction false} RetainKeeps(s: Store, k: BlockKey, until: nat, recordOk: bool)
    requires Inv(s) && Enabled(s, Retain(k, until, recordOk))
    ensures Inv(AfterRetain(s, k, until, recordOk))
  {
    assert CommitOk(s, k);
    DeadlinesKeep(s, s.view[k := s.view[k].(until := until)]);
    FaultKeeps(s.(view := s.view[k := s.view[k].(until := until)]));
    assert s.table[PlaceOf(s.view[k].ref) := Rec(k, s.view[k].ref.size, s.committed[k], true)] == s.table;
  }

  lemma {:induction false} ExpireKeeps(s: Store, keys: set<BlockKey>, now: nat)
    requires Inv(s) && Enabled(s, Expire(keys, now))
    ensures Inv(Apply(s, Expire(keys, now)))
  {
    DeadlinesKeep(s, Apply(s, Expire(keys, now)).view);
  }

  lemma {:induction false} ReserveFailsKeeps(s: Store, cleared: set<Place>, ok: bool)
    requires Inv(s) && Enabled(s, ReserveFails(cleared, ok))
    ensures Inv(s.(table := s.table - cleared, healthy := ok))
  {
    ReclaimKeeps(s, {}, cleared, ok);
    assert s.view - {} == s.view && s.committed - {} == s.committed && s.values - {} == s.values;
  }

  // ------------------------------------------------------------ runs

  lemma {:induction false} StepKeeps(s: Store, step: Step)
    requires Inv(s) && Enabled(s, step)
    ensures Inv(Apply(s, step))
  {
    match step
    case Reserve(t, k, data, ref, evicted, cleared) => ReserveKeeps(s, step);
    case ReserveFails(cleared, ok) => ReserveFailsKeeps(s, cleared, ok);
    case Torn(t, bytes) => WriteKeeps(s, t, bytes, Reserved);
    case WriteDone(t, bytes) => WriteKeeps(s, t, bytes, Written);
    case WriteFails(t) => FailedKeeps(s, t, true);
    case RecordDone(t) => RecordKeeps(s, t);
    case RecordFails(t) => FailedKeeps(s, t, false);
    case Commit(t, recordOk) => CommitKeeps(s, t, recordOk);
    case Acquire(t, k) => AcquireKeeps(s, t, k);
    case Release(t, recordOk) => ReleaseKeeps(s, t, recordOk);
    case Remove(k, recordOk) => RemoveKeeps(s, k, recordOk);
    case Reclaim(evicted, cleared, ok) => ReclaimKeeps(s, evicted, cleared, ok);
    case Retain(k, until, recordOk) => RetainKeeps(s, k, until, recordOk);
    case Expire(keys, now) => ExpireKeeps(s, keys, now);
    case Fault => FaultKeeps(s);
  }

  /** A freshly opened, empty store. */
  function Empty(extentBytes: nat, media: seq<seq<Byte>>): Store {
    Store(extentBytes, map[], media, map[], map[], map[], {}, map[], map[], map[], map[], true)
  }

  lemma {:induction false} EmptyOk(extentBytes: nat, media: seq<seq<Byte>>)
    requires forall e :: 0 <= e < |media| ==> |media[e]| == extentBytes
    ensures Inv(Empty(extentBytes, media))
  {
    var s := Empty(extentBytes, media);
    forall e ensures FileOk(s, e) {}
    forall k ensures KeyOk(s, k) {}
  }

  /** `ss` is the run that `steps` takes from `ss[0]`. */
  ghost predicate Execution(ss: seq<Store>, steps: seq<Step>) {
    |ss| == |steps| + 1 && forall i :: 0 <= i < |steps| ==> StepAt(ss, steps, i)
  }

  ghost predicate StepAt(ss: seq<Store>, steps: seq<Step>, i: nat)
    requires i < |steps| < |ss|
  {
    Enabled(ss[i], steps[i]) && ss[i + 1] == Apply(ss[i], steps[i])
  }

  lemma {:induction false} RunStep(ss: seq<Store>, steps: seq<Step>, i: nat)
    requires Execution(ss, steps) && i < |steps|
    ensures Enabled(ss[i], steps[i]) && ss[i + 1] == Apply(ss[i], steps[i])
  {
    assert StepAt(ss, steps, i);
  }

  lemma {:induction false} ExecutionKeeps(ss: seq<Store>, steps: seq<Step>, n: nat)
    requires Execution(ss, steps) && Inv(ss[0]) && n <= |steps|
    ensures Inv(ss[n])
  {
    if n > 0 {
      ExecutionKeeps(ss, steps, n - 1);
      RunStep(ss, steps, n - 1);
      StepKeeps(ss[n - 1], steps[n - 1]);
    }
  }

  lemma {:induction false} ConcludeFrame(r: Store, t: nat, p: PutOp, ioOk: bool, removed: bool)
    ensures var w := Conclude(r, t, p, ioOk, removed);
            w.readers == r.readers && w.media == r.media && w.extentBytes == r.extentBytes
  {
  }

  lemma {:induction false} ConcludeValues(r: Store, t: nat, p: PutOp, ioOk: bool, removed: bool)
    ensures Conclude(r, t, p, ioOk, removed).values
         == if ioOk && r.healthy && !removed then r.values[p.key := p.data] else r.values
  {
  }

  lemma {:induction false} CommitFrame(s: Store, t: nat, recordOk: bool, k: BlockKey)
    requires t in s.writers
    ensures var w := AfterCommit(s, t, recordOk);
            && w.readers == s.readers && w.media == s.media && w.extentBytes == s.extentBytes
            && (k in w.values ==>
                  || (k in s.values && w.values[k] == s.values[k])
                  || (k == s.writers[t].key && w.values[k] == s.writers[t].data))
  {
    var p := s.writers[t];
    var r := AfterRelease(s, p.key, recordOk);
    ConcludeFrame(r, t, p, p.phase == Recorded && ReleaseOk(s, p.key, recordOk), p.key in s.deferred);
    ConcludeValues(r, t, p, p.phase == Recorded && ReleaseOk(s, p.key, recordOk), p.key in s.deferred);
  }

  lemma {:induction false} ReaderStays(s: Store, step: Step, t: nat)
    requires Enabled(s, step) && t in s.readers
    requires !(step.Release? && step.t == t)
    ensures t in Apply(s, step).readers && Apply(s, step).readers[t] == s.readers[t]
  {
    match step
    case Commit(x, recordOk) => CommitFrame(s, x, recordOk, s.readers[t].key);
    case Release(x, recordOk) => assert ReleaseFrame(s, AfterRelease(s, s.readers[x].key, recordOk));
    case _ =>
  }

  lemma {:induction false} SameReader(ss: seq<Store>, steps: seq<Step>, i: nat, n: nat, t: nat, k: BlockKey)
    requires Execution(ss, steps) && Inv(ss[0])
    requires i < n <= |steps| && steps[i] == Acquire(t, k)
    requires forall j :: i < j < n ==> !(steps[j].Release? && steps[j].t == t)
    ensures k in ss[i].values && k in ss[i].committed && k in ss[i].view
    ensures t in ss[n].readers
    ensures ss[n].readers[t] == ReadOp(k, ss[i].view[k].ref, ss[i].committed[k], ss[i].values[k])
    decreases n - i
  {
    ExecutionKeeps(ss, steps, i);
    RunStep(ss, steps, i);
    assert CommitOk(ss[i], k);
    if n == i + 1 {
      assert ss[n] == AfterAcquire(ss[i], t, k);
    } else {
      SameReader(ss, steps, i, n - 1, t, k);
      ExecutionKeeps(ss, steps, n - 1);
      RunStep(ss, steps, n - 1);
      ReaderStays(ss[n - 1], steps[n - 1], t);
    }
  }

  /** From acquire to release, through every interleaving with PUTs, torn writes, other
      reads, removals and reclaim, the acquired slot reads as the committed value. */
  lemma {:induction false} ReaderSeesCommittedBytes(ss: seq<Store>, steps: seq<Step>, i: nat, n: nat, t: nat,
                                                    k: BlockKey)
    requires Execution(ss, steps) && Inv(ss[0])
    requires i < n <= |steps| && steps[i] == Acquire(t, k)
    requires forall j :: i < j < n ==> !(steps[j].Release? && steps[j].t == t)
    ensures k in ss[i].values && t in ss[n].readers
    ensures k in ss[i].view && ss[n].readers[t].key == k && ss[n].readers[t].ref == ss[i].view[k].ref
    ensures HoldsBytes(ss[n].media, ss[n].readers[t].ref, ss[i].values[k])
    ensures |ss[i].values[k]| == ss[n].readers[t].len
  {
    SameReader(ss, steps, i, n, t, k);
    ExecutionKeeps(ss, steps, n);
    assert ReaderOk(ss[n], t);
  }

  lemma {:induction false} OnlyCommitsPublish(s: Store, step: Step, k: BlockKey)
    requires Enabled(s, step) && !step.Commit?
    ensures k in Apply(s, step).values ==> k in s.values && Apply(s, step).values[k] == s.values[k]
  {
    if step.Release? {
      assert ReleaseFrame(s, AfterRelease(s, s.readers[step.t].key, step.recordOk));
    }
  }

  /** The committed value of a key is always the data of the PUT whose commit published it. */
  lemma {:induction false} ValuesComeFromCommits(s: Store, step: Step, k: BlockKey)
    requires Enabled(s, step) && k in Apply(s, step).values
    ensures (k in s.values && Apply(s, step).values[k] == s.values[k])
         || (step.Commit? && s.writers[step.t].key == k && Apply(s, step).values[k] == s.writers[step.t].data)
  {
    if step.Commit? {
      CommitFrame(s, step.t, step.recordOk, k);
    } else {
      OnlyCommitsPublish(s, step, k);
    }
  }

  /** No payload write ever touches a byte that some reader has acquired. */
  lemma {:induction false} WritersAvoidReaders(s: Store, t: nat, r: nat)
    requires Inv(s) && t in s.writers && r in s.readers
    ensures s.writers[t].key != s.readers[r].key
    ensures !Overlap(s.writers[t].ref, s.readers[r].ref)
  {
    assert WriterOk(s, t) && KeyOk(s, s.writers[t].key) && ReaderOk(s, r);
    ReaderCounted(s, r);
    ResidentsDisjoint(s.view, s.extentBytes, s.writers[t].key, s.readers[r].key);
  }

  /** On a healthy store the allocator holds exactly the committed keys, the keys being
      written and the keys whose removal is deferred, each pinned once per operation in
      flight. */
  lemma {:induction false} ResidentsExact(s: Store)
    requires Inv(s) && s.healthy
    ensures s.view.Keys == s.committed.Keys + s.flights.Keys + s.deferred
    ensures forall k :: k in s.view ==>
              s.view[k].refs == Readers(s.readers, k) + (if k in s.flights then 1 else 0)
  {
    forall k ensures k in s.view <==> k in s.committed || k in s.flights || k in s.deferred {
      assert KeyOk(s, k) && CommitOk(s, k);
    }
    forall k ensures k in s.view ==>
              s.view[k].refs == Readers(s.readers, k) + (if k in s.flights then 1 else 0) {
      assert KeyOk(s, k);
    }
  }
}
