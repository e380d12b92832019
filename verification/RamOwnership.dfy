/** Who may touch a RAM tier entry: every unflushed value is queued once or owned by one
    flusher, arena pins are exactly the flush pin plus the send pins, and nothing is
    dropped while a pin names it. */
module RamOwnership {
  import opened Types
  import opened Lifecycle
  import opened Sums
  import opened RamTier

  function TokenOn(k: BlockKey): Token -> int {
    (t: Token) => if t.key == k then 1 else 0
  }

  function FlushOn(k: BlockKey): Flush -> int {
    (f: Flush) => if f.key == k then 1 else 0
  }

  function HiddenOn(k: BlockKey): Admission -> int {
    (a: Admission) => if a.key == k && a.phase == Hidden then 1 else 0
  }

  function Queued(q: seq<QueueItem>, k: BlockKey): nat {
    if q == [] then 0 else (if q[0].key == k then 1 else 0) + Queued(q[1..], k)
  }

  predicate Done(cs: map<nat, Completion>, c: nat) {
    c in cs && cs[c].done
  }

  /** An arena entry's slot is pinned once per send pin, plus once until it is flushed. */
  predicate PinsOk(arena: View, k: BlockKey, e: Entry) {
    !e.large ==>
      && k in arena && !arena[k].pending && arena[k].until == 0
      && arena[k].refs == e.sendPins + (if e.flushPin then 1 else 0)
      && arena[k].ref.size == e.cap
  }

  predicate EntryOk(s: Tier, k: BlockKey) {
    k in s.index ==>
      var e := s.index[k];
      && k !in s.writing
      && e.gen in s.completions && s.completions[e.gen].key == k && !s.completions[e.gen].canceled
      && (e.durable ==> !e.flushPin && !e.flushing && Done(s.completions, e.gen))
      && (e.flushing ==> e.flushPin && !Done(s.completions, e.gen))
      && (!e.durable && !e.hidden ==> e.flushPin && !Done(s.completions, e.gen))
      && (e.hidden ==> e.flushing || e.sendPins > 0)
      && (e.hidden && !e.flushing ==> !e.flushPin && Done(s.completions, e.gen))
      && PinsOk(s.arena, k, e)
      && (e.gen in s.admissions ==> s.admissions[e.gen].phase == Held && s.admissions[e.gen].key == k && e.sendPins > 0)
  }

  /** A pending flush is queued once or owned once; send pins are the tokens outstanding. */
  ghost predicate HoldersOk(s: Tier, k: BlockKey) {
    && Sum(s.flushes, FlushOn(k)) == (if k in s.index && s.index[k].flushing then 1 else 0)
    && Queued(s.queue, k) ==
         (if k in s.index && !s.index[k].durable && !s.index[k].hidden && !s.index[k].flushing then 1 else 0)
    && Sum(s.tokens, TokenOn(k)) ==
         (if k in s.index then s.index[k].sendPins - (if s.index[k].gen in s.admissions then 1 else 0) else 0)
  }

  /** Arena slots belong to entries, to admissions being filled, or to canceled
      reservations that still pin them. */
  ghost predicate SlotOk(s: Tier, k: BlockKey) {
    && (k in s.writing ==>
          && k !in s.index
          && s.writing[k] in s.admissions
          && s.admissions[s.writing[k]].key == k
          && (s.admissions[s.writing[k]].phase == Claimed || s.admissions[s.writing[k]].phase == Filling))
    && Sum(s.admissions, HiddenOn(k)) == (if k in s.arena && s.arena[k].pending then 1 else 0)
    && (k in s.arena ==>
          || (k in s.index && !s.index[k].large)
          || (k in s.writing && s.admissions[s.writing[k]].phase == Filling && !s.admissions[s.writing[k]].large)
          || (s.arena[k].pending && s.arena[k].refs == 1))
  }

  predicate AdmissionOk(s: Tier, c: nat) {
    c in s.admissions ==>
      var a := s.admissions[c];
      && c in s.completions && s.completions[c].key == a.key
      && (a.phase == Claimed || a.phase == Filling ==>
            a.key in s.writing && s.writing[a.key] == c && !s.completions[c].done)
      && (a.phase == Filling && !a.large ==>
            && a.key in s.arena && s.arena[a.key] == Resident(s.arena[a.key].ref, 1, false, 0)
            && s.arena[a.key].ref.size == a.cap)
      && (a.phase == Held ==> a.key in s.index && s.index[a.key].gen == c && !a.large)
      && (a.phase == Hidden ==>
            && a.key in s.arena && s.arena[a.key].pending && s.arena[a.key].refs == 1
            && s.completions[c].done && !a.large)
      && (a.kind == Reservation ==> !a.large)
  }

  predicate FlushOk(s: Tier, o: nat) {
    o in s.flushes ==>
      && s.flushes[o].key in s.index
      && s.index[s.flushes[o].key].gen == s.flushes[o].gen
      && s.index[s.flushes[o].key].flushing
  }

  predicate TokenOk(s: Tier, t: nat) {
    t in s.tokens ==> s.tokens[t].key in s.index && s.index[s.tokens[t].key].gen == s.tokens[t].gen
  }

  ghost predicate Inv(s: Tier) {
    && (forall k :: EntryOk(s, k))
    && (forall k :: HoldersOk(s, k))
    && (forall k :: SlotOk(s, k))
    && (forall c :: AdmissionOk(s, c))
    && (forall o :: FlushOk(s, o))
    && (forall t :: TokenOk(s, t))
  }

  // ------------------------------------------------------------ counting

  lemma {:induction false} QueuedAppend(q: seq<QueueItem>, i: QueueItem, k: BlockKey)
    ensures Queued(q + [i], k) == Queued(q, k) + (if i.key == k then 1 else 0)
  {
    if q != [] {
      assert (q + [i])[1..] == q[1..] + [i];
      QueuedAppend(q[1..], i, k);
    }
  }

  lemma {:induction false} QueuedWithout(q: seq<QueueItem>, j: BlockKey, k: BlockKey)
    ensures Queued(Without(q, j), k) == if j == k then 0 else Queued(q, k)
  {
    if q != [] {
      QueuedWithout(q[1..], j, k);
      if q[0].key != j {
        assert Without(q, j)[1..] == Without(q[1..], j);
      }
    }
  }

  // ------------------------------------------------------------ admission

  lemma {:induction false} ClaimKeeps(s: Tier, c: nat, k: BlockKey, cap: nat, large: bool, kind: Kind)
    requires Inv(s) && Enabled(s, Claim(c, k, cap, large, kind))
    ensures Inv(AfterClaim(s, c, k, cap, large, kind))
  {
    var u := AfterClaim(s, c, k, cap, large, kind);
    forall j ensures EntryOk(u, j) { assert EntryOk(s, j); }
    forall j ensures HoldersOk(u, j) { assert HoldersOk(s, j) && EntryOk(s, j); }
    forall j ensures SlotOk(u, j) {
      assert SlotOk(s, j);
      SumAdd(s.admissions, c, u.admissions[c], HiddenOn(j));
    }
    forall x ensures AdmissionOk(u, x) { assert AdmissionOk(s, x); }
    forall x ensures FlushOk(u, x) { assert FlushOk(s, x); }
    forall x ensures TokenOk(u, x) { assert TokenOk(s, x); }
  }

  lemma {:induction false} FillArenaKeeps(s: Tier, c: nat, ref: SlotRef)
    requires Inv(s) && Enabled(s, FillArena(c, ref))
    ensures Inv(AfterFillArena(s, c, ref))
  {
    var u := AfterFillArena(s, c, ref);
    assert AdmissionOk(s, c) && SlotOk(s, s.admissions[c].key);
    forall j ensures EntryOk(u, j) { assert EntryOk(s, j); }
    forall j ensures HoldersOk(u, j) { assert HoldersOk(s, j) && EntryOk(s, j); }
    forall j ensures SlotOk(u, j) { FillArenaSlot(s, c, ref, j); }
    forall x ensures AdmissionOk(u, x) { assert AdmissionOk(s, x); }
    forall x ensures FlushOk(u, x) { assert FlushOk(s, x); }
    forall x ensures TokenOk(u, x) { assert TokenOk(s, x); }
  }

  lemma {:induction false} FillArenaSlot(s: Tier, c: nat, ref: SlotRef, j: BlockKey)
    requires Inv(s) && Enabled(s, FillArena(c, ref))
    ensures SlotOk(AfterFillArena(s, c, ref), j)
  {
    var u := AfterFillArena(s, c, ref);
    assert AdmissionOk(s, c) && SlotOk(s, s.admissions[c].key) && SlotOk(s, j);
    SumUpdate(s.admissions, c, u.admissions[c], HiddenOn(j));
  }

  lemma {:induction false} FillLargeKeeps(s: Tier, c: nat)
    requires Inv(s) && Enabled(s, FillLarge(c))
    ensures Inv(AfterFillLarge(s, c))
  {
    var u := AfterFillLarge(s, c);
    assert AdmissionOk(s, c) && SlotOk(s, s.admissions[c].key);
    forall j ensures EntryOk(u, j) { assert EntryOk(s, j); }
    forall j ensures HoldersOk(u, j) { assert HoldersOk(s, j) && EntryOk(s, j); }
    forall j ensures SlotOk(u, j) {
      assert SlotOk(s, j);
      SumUpdate(s.admissions, c, u.admissions[c], HiddenOn(j));
    }
    forall x ensures AdmissionOk(u, x) { assert AdmissionOk(s, x); }
    forall x ensures FlushOk(u, x) { assert FlushOk(s, x); }
    forall x ensures TokenOk(u, x) { assert TokenOk(s, x); }
  }

  lemma {:induction false} GiveUpKeeps(s: Tier, c: nat)
    requires Inv(s) && c in s.admissions && s.admissions[c].phase == Claimed
    ensures Inv(AfterGiveUp(s, c))
  {
    var k := s.admissions[c].key;
    var u := AfterGiveUp(s, c);
    assert AdmissionOk(s, c) && SlotOk(s, k);
    forall j ensures EntryOk(u, j) { assert EntryOk(s, j); }
    forall j ensures HoldersOk(u, j) { assert HoldersOk(s, j) && EntryOk(s, j); }
    forall j ensures SlotOk(u, j) {
      assert SlotOk(s, j);
      SumUpdate(s.admissions, c, u.admissions[c], HiddenOn(j));
    }
    forall x ensures AdmissionOk(u, x) { assert AdmissionOk(s, x); }
    forall x ensures FlushOk(u, x) { assert FlushOk(s, x); }
    forall x ensures TokenOk(u, x) { assert TokenOk(s, x); }
  }

  lemma {:induction false} ReservedSlot(s: Tier, c: nat, j: BlockKey)
    requires Enabled(s, Publish(c)) && s.admissions[c].kind == Reservation
    requires AdmissionOk(s, c) && SlotOk(s, s.admissions[c].key) && SlotOk(s, j)
    ensures SlotOk(Published(s, c), j)
  {
    SumUpdate(s.admissions, c, s.admissions[c].(phase := Held), HiddenOn(j));
  }

  lemma {:induction false} PublishSlot(s: Tier, c: nat, j: BlockKey)
    requires Enabled(s, Publish(c)) && !s.completions[c].canceled
    requires AdmissionOk(s, c) && SlotOk(s, s.admissions[c].key) && SlotOk(s, j)
    ensures SlotOk(Published(s, c), j)
  {
    if s.admissions[c].kind == Reservation { ReservedSlot(s, c, j); } else { SumRemove(s.admissions, c, HiddenOn(j)); }
  }

  lemma {:induction false} PublishAdmission(s: Tier, c: nat, x: nat)
    requires Inv(s) && Enabled(s, Publish(c)) && !s.completions[c].canceled
    ensures AdmissionOk(Published(s, c), x)
  {
    assert AdmissionOk(s, c) && SlotOk(s, s.admissions[c].key) && AdmissionOk(s, x);
  }

  lemma {:induction false} PublishHolders(s: Tier, c: nat, j: BlockKey)
    requires Inv(s) && Enabled(s, Publish(c)) && !s.completions[c].canceled
    ensures HoldersOk(Published(s, c), j)
  {
    var k := s.admissions[c].key;
    assert AdmissionOk(s, c) && SlotOk(s, k) && HoldersOk(s, k) && HoldersOk(s, j) && EntryOk(s, j);
    QueuedAppend(s.queue, QueueItem(k, 0), j);
  }

  /** The published value enters the index together with its place in the queue. */
  lemma {:induction false} PublishKeeps(s: Tier, c: nat)
    requires Inv(s) && Enabled(s, Publish(c)) && !s.completions[c].canceled
    ensures Inv(Published(s, c))
  {
    var k := s.admissions[c].key;
    var u := Published(s, c);
    assert AdmissionOk(s, c) && SlotOk(s, k);
    forall j ensures EntryOk(u, j) { assert EntryOk(s, j); }
    forall j ensures HoldersOk(u, j) { PublishHolders(s, c, j); }
    forall j ensures SlotOk(u, j) { PublishSlot(s, c, j); }
    forall x ensures AdmissionOk(u, x) { PublishAdmission(s, c, x); }
    forall x ensures FlushOk(u, x) { assert FlushOk(s, x); }
    forall x ensures TokenOk(u, x) { assert TokenOk(s, x); }
  }

  lemma {:induction false} WithdrawKeeps(s: Tier, c: nat)
    requires Inv(s) && c in s.admissions && s.admissions[c].phase == Filling
    ensures Inv(Withdrawn(s, c))
  {
    var k := s.admissions[c].key;
    var u := Withdrawn(s, c);
    assert AdmissionOk(s, c) && SlotOk(s, k);
    forall j ensures EntryOk(u, j) { assert EntryOk(s, j); }
    forall j ensures HoldersOk(u, j) { assert HoldersOk(s, j) && EntryOk(s, j); }
    forall j ensures SlotOk(u, j) {
      assert SlotOk(s, j);
      SumUpdate(s.admissions, c, u.admissions[c], HiddenOn(j));
    }
    forall x ensures AdmissionOk(u, x) { assert AdmissionOk(s, x); }
    forall x ensures FlushOk(u, x) { assert FlushOk(s, x); }
    forall x ensures TokenOk(u, x) { assert TokenOk(s, x); }
  }

  lemma {:induction false} ConcealKeeps(s: Tier, c: nat)
    requires Inv(s) && c in s.admissions && s.admissions[c].phase == Filling && s.admissions[c].kind == Reservation
    ensures Inv(Concealed(s, c))
  {
    var k := s.admissions[c].key;
    var u := Concealed(s, c);
    assert AdmissionOk(s, c) && SlotOk(s, k);
    forall j ensures EntryOk(u, j) { assert EntryOk(s, j); }
    forall j ensures HoldersOk(u, j) { assert HoldersOk(s, j) && EntryOk(s, j); }
    forall j ensures SlotOk(u, j) {
      assert SlotOk(s, j);
      SumUpdate(s.admissions, c, u.admissions[c], HiddenOn(j));
    }
    forall x ensures AdmissionOk(u, x) { assert AdmissionOk(s, x); }
    forall x ensures FlushOk(u, x) { assert FlushOk(s, x); }
    forall x ensures TokenOk(u, x) { assert TokenOk(s, x); }
  }

  lemma {:induction false} UnhideKeeps(s: Tier, c: nat)
    requires Inv(s) && Enabled(s, Unhide(c))
    ensures Inv(AfterUnhide(s, c))
  {
    var k := s.admissions[c].key;
    var u := AfterUnhide(s, c);
    assert AdmissionOk(s, c) && SlotOk(s, k) && EntryOk(s, k);
    forall j ensures EntryOk(u, j) { assert EntryOk(s, j); }
    forall j ensures HoldersOk(u, j) { assert HoldersOk(s, j) && EntryOk(s, j); }
    forall j ensures SlotOk(u, j) {
      assert SlotOk(s, j);
      SumUpdate(s.admissions, c, u.admissions[c], HiddenOn(j));
    }
    forall x ensures AdmissionOk(u, x) { assert AdmissionOk(s, x); OneHidden(s, c, x); }
    forall x ensures FlushOk(u, x) { assert FlushOk(s, x); }
    forall x ensures TokenOk(u, x) { assert TokenOk(s, x); }
  }

  /** At most one canceled reservation pins a key's slot. */
  lemma {:induction false} OneHidden(s: Tier, c: nat, x: nat)
    requires Inv(s) && c in s.admissions && s.admissions[c].phase == Hidden
    ensures x in s.admissions && x != c && s.admissions[x].phase == Hidden
      ==> s.admissions[x].key != s.admissions[c].key
  {
    var k := s.admissions[c].key;
    assert SlotOk(s, k);
    if x in s.admissions && x != c && s.admissions[x].phase == Hidden && s.admissions[x].key == k {
      SumRemove(s.admissions, c, HiddenOn(k));
      SumRemove(s.admissions - {c}, x, HiddenOn(k));
      SumNonNegative(s.admissions - {c} - {x}, HiddenOn(k));
    }
  }

  lemma {:induction false} ReturnKeeps(s: Tier, c: nat)
    requires Inv(s) && Enabled(s, Return(c))
    ensures Inv(AfterReturn(s, c))
  {
    var u := AfterReturn(s, c);
    assert AdmissionOk(s, c);
    forall j ensures EntryOk(u, j) { assert EntryOk(s, j); }
    forall j ensures HoldersOk(u, j) { assert HoldersOk(s, j) && EntryOk(s, j); }
    forall j ensures SlotOk(u, j) {
      assert SlotOk(s, j);
      if j in s.writing { assert AdmissionOk(s, s.writing[j]); }
      SumRemove(s.admissions, c, HiddenOn(j));
    }
    forall x ensures AdmissionOk(u, x) { assert AdmissionOk(s, x); }
    forall x ensures FlushOk(u, x) { assert FlushOk(s, x); }
    forall x ensures TokenOk(u, x) { assert TokenOk(s, x); }
  }

  // ------------------------------------------------------------ steps on one entry

  predicate SameIn<V(==)>(m: map<BlockKey, V>, n: map<BlockKey, V>, j: BlockKey) {
    (j in m <==> j in n) && (j in m ==> m[j] == n[j])
  }

  ghost predicate SameFor(s: Tier, u: Tier, j: BlockKey) {
    && SameIn(s.index, u.index, j)
    && SameIn(s.arena, u.arena, j)
    && Sum(u.flushes, FlushOn(j)) == Sum(s.flushes, FlushOn(j))
    && Queued(u.queue, j) == Queued(s.queue, j)
    && Sum(u.tokens, TokenOn(j)) == Sum(s.tokens, TokenOn(j))
  }

  predicate FlushFrom(s: Tier, u: Tier, k: BlockKey, o: nat)
    requires k in s.index
  {
    o in u.flushes ==>
      if u.flushes[o].key == k then u.flushes[o].gen == s.index[k].gen
      else o in s.flushes && u.flushes[o] == s.flushes[o]
  }

  predicate TokenFrom(s: Tier, u: Tier, k: BlockKey, t: nat)
    requires k in s.index
  {
    t in u.tokens ==>
      if u.tokens[t].key == k then u.tokens[t].gen == s.index[k].gen
      else t in s.tokens && u.tokens[t] == s.tokens[t]
  }

  /** The step from `s` to `u` changes the entry of `k`, its slot, its generation's
      completion and who holds it, and nothing of any other key. */
  ghost predicate Local(s: Tier, u: Tier, k: BlockKey) {
    && k in s.index
    && u.writing == s.writing
    && (k in u.index ==> u.index[k].gen == s.index[k].gen && u.index[k].large == s.index[k].large)
    && (if s.index[k].large then u.arena == s.arena else k in u.arena ==> k in u.index)
    && var g := s.index[k].gen;
    && u.completions.Keys == s.completions.Keys
    && u.completions - {g} == s.completions - {g}
    && (u.admissions == s.admissions || u.admissions == s.admissions - {g})
    && (g in u.admissions ==> k in u.index)
    && (forall o :: FlushFrom(s, u, k, o))
    && (forall t :: TokenFrom(s, u, k, t))
    && (forall j :: j != k ==> SameFor(s, u, j))
  }

  lemma {:induction false} Counted<V>(m: map<nat, V>, f: V -> int, x: nat)
    requires x in m && f(m[x]) == 1 && forall v :: f(v) >= 0
    ensures Sum(m, f) > 0
  {
    SumRemove(m, x, f);
    SumNonNegative(m - {x}, f);
  }

  lemma {:induction false} LocalEntry(s: Tier, u: Tier, k: BlockKey, j: BlockKey)
    requires Inv(s) && Local(s, u, k) && j != k
    ensures EntryOk(u, j) && HoldersOk(u, j)
  {
    assert EntryOk(s, j) && EntryOk(s, k) && HoldersOk(s, j);
    assert SameFor(s, u, j);
    if j in s.index {
      var c := s.index[j].gen;
      assert c in s.completions - {s.index[k].gen};
    }
  }

  lemma {:induction false} LocalSlot(s: Tier, u: Tier, k: BlockKey, j: BlockKey)
    requires Inv(s) && Local(s, u, k) && EntryOk(u, k)
    ensures SlotOk(u, j)
  {
    var g := s.index[k].gen;
    assert SlotOk(s, j) && EntryOk(s, k) && EntryOk(s, j);
    if g in s.admissions {
      SumRemove(s.admissions, g, HiddenOn(j));
    } else {
      assert s.admissions - {g} == s.admissions;
    }
    if j in s.writing { assert AdmissionOk(s, s.writing[j]); }
    assert j != k ==> SameFor(s, u, j);
  }

  lemma {:induction false} LocalAdmission(s: Tier, u: Tier, k: BlockKey, x: nat)
    requires Inv(s) && Local(s, u, k) && EntryOk(u, k)
    ensures AdmissionOk(u, x)
  {
    assert AdmissionOk(s, x) && EntryOk(s, k);
    if x in u.admissions {
      var j := s.admissions[x].key;
      var g := s.index[k].gen;
      assert x == g || x in u.completions - {g};
      assert j != k ==> SameFor(s, u, j);
    }
  }

  lemma {:induction false} LocalKeeps(s: Tier, u: Tier, k: BlockKey)
    requires Inv(s) && Local(s, u, k) && EntryOk(u, k) && HoldersOk(u, k)
    ensures Inv(u)
  {
    forall j ensures EntryOk(u, j) { if j != k { LocalEntry(s, u, k, j); } }
    forall j ensures HoldersOk(u, j) { if j != k { LocalEntry(s, u, k, j); } }
    forall j ensures SlotOk(u, j) { LocalSlot(s, u, k, j); }
    forall x ensures AdmissionOk(u, x) { LocalAdmission(s, u, k, x); }
    forall x ensures FlushOk(u, x) {
      assert FlushFrom(s, u, k, x) && FlushOk(s, x);
      if x in u.flushes && u.flushes[x].key == k { Counted(u.flushes, FlushOn(k), x); }
      else if x in u.flushes { assert SameFor(s, u, u.flushes[x].key); }
    }
    forall x ensures TokenOk(u, x) {
      assert TokenFrom(s, u, k, x) && TokenOk(s, x);
      if x in u.tokens && u.tokens[x].key == k { Counted(u.tokens, TokenOn(k), x); }
      else if x in u.tokens { assert SameFor(s, u, u.tokens[x].key); }
    }
  }

  // ------------------------------------------------------------ reads

  lemma {:induction false} GetEntry(s: Tier, t: nat, k: BlockKey)
    requires EntryOk(s, k) && HoldersOk(s, k) && Enabled(s, Get(t, k))
    ensures EntryOk(AfterGet(s, t, k), k) && HoldersOk(AfterGet(s, t, k), k)
  {
    assert PinsOk(s.arena, k, s.index[k]);
    SumAdd(s.tokens, t, AfterGet(s, t, k).tokens[t], TokenOn(k));
  }

  lemma {:induction false} GetKeeps(s: Tier, t: nat, k: BlockKey)
    requires Inv(s) && Enabled(s, Get(t, k))
    ensures Inv(AfterGet(s, t, k))
  {
    var u := AfterGet(s, t, k);
    assert EntryOk(s, k) && HoldersOk(s, k) && SlotOk(s, k);
    GetEntry(s, t, k);
    forall j ensures j != k ==> SameFor(s, u, j) { SumAdd(s.tokens, t, u.tokens[t], TokenOn(j)); }
    forall o ensures FlushFrom(s, u, k, o) { assert FlushOk(s, o); }
    forall x ensures TokenFrom(s, u, k, x) { assert TokenOk(s, x); }
    LocalKeeps(s, u, k);
  }

  lemma {:induction false} UnsentEntry(s: Tier, u: Tier, k: BlockKey)
    requires EntryOk(s, k) && k in s.index && s.index[k].sendPins > 0
    requires u == Unsent(s, k).(admissions := u.admissions, tokens := u.tokens)
    requires u.admissions == s.admissions || u.admissions == s.admissions - {s.index[k].gen}
    requires s.index[k].gen in u.admissions ==> s.index[k].sendPins > 1
    ensures EntryOk(u, k)
    ensures k in u.index ==> u.index[k] == s.index[k].(sendPins := s.index[k].sendPins - 1)
    ensures k !in u.index ==> s.index[k].hidden && s.index[k].sendPins == 1 && !s.index[k].flushing
    ensures if s.index[k].large then u.arena == s.arena else k in u.arena ==> k in u.index
    ensures forall j :: j != k ==> SameIn(s.index, u.index, j) && SameIn(s.arena, u.arena, j)
  {
    assert PinsOk(s.arena, k, s.index[k]);
  }

  lemma {:induction false} ReleaseTokenKeeps(s: Tier, t: nat)
    requires Inv(s) && Enabled(s, ReleaseToken(t))
    ensures Inv(Apply(s, ReleaseToken(t)))
  {
    var k := s.tokens[t].key;
    var u := Apply(s, ReleaseToken(t));
    assert EntryOk(s, k) && HoldersOk(s, k);
    SumRemove(s.tokens, t, TokenOn(k));
    SumNonNegative(s.tokens - {t}, TokenOn(k));
    UnsentEntry(s, u, k);
    forall j ensures j != k ==> SameFor(s, u, j) { SumRemove(s.tokens, t, TokenOn(j)); }
    forall o ensures FlushFrom(s, u, k, o) { assert FlushOk(s, o); }
    forall x ensures TokenFrom(s, u, k, x) { assert TokenOk(s, x); }
    LocalKeeps(s, u, k);
  }

  lemma {:induction false} ReleaseHeldKeeps(s: Tier, c: nat)
    requires Inv(s) && Enabled(s, ReleaseHeld(c))
    ensures Inv(Apply(s, ReleaseHeld(c)))
  {
    var k := s.admissions[c].key;
    var u := Apply(s, ReleaseHeld(c));
    assert AdmissionOk(s, c) && EntryOk(s, k) && HoldersOk(s, k);
    UnsentEntry(s, u, k);
    forall j ensures j != k ==> SameFor(s, u, j) { }
    forall o ensures FlushFrom(s, u, k, o) { assert FlushOk(s, o); }
    forall x ensures TokenFrom(s, u, k, x) { assert TokenOk(s, x); }
    LocalKeeps(s, u, k);
  }

  // ------------------------------------------------------------ removal

  lemma {:induction false} HideKeeps(s: Tier, k: BlockKey)
    requires Inv(s) && k in s.index && !s.index[k].hidden
    ensures Inv(Hide(s, k))
  {
    var u := Hide(s, k);
    assert EntryOk(s, k) && HoldersOk(s, k) && SlotOk(s, k);
    forall j ensures j != k ==> SameFor(s, u, j) { QueuedWithout(s.queue, k, j); }
    QueuedWithout(s.queue, k, k);
    forall o ensures FlushFrom(s, u, k, o) { assert FlushOk(s, o); }
    forall x ensures TokenFrom(s, u, k, x) { assert TokenOk(s, x); }
    LocalKeeps(s, u, k);
  }

  // ------------------------------------------------------------ flushing

  lemma {:induction false} DequeueKeeps(s: Tier, o: nat)
    requires Inv(s) && Enabled(s, Dequeue(o))
    ensures Inv(AfterDequeue(s, o))
  {
    var k := s.queue[0].key;
    var u := AfterDequeue(s, o);
    assert EntryOk(s, k) && HoldersOk(s, k) && SlotOk(s, k);
    forall j ensures j != k ==> SameFor(s, u, j) { SumAdd(s.flushes, o, u.flushes[o], FlushOn(j)); }
    SumAdd(s.flushes, o, u.flushes[o], FlushOn(k));
    forall x ensures FlushFrom(s, u, k, x) { assert FlushOk(s, x); }
    forall x ensures TokenFrom(s, u, k, x) { assert TokenOk(s, x); }
    LocalKeeps(s, u, k);
  }

  /** The facts every completed flush starts from: the flusher owns its entry alone. */
  lemma {:induction false} Owned(s: Tier, o: nat)
    requires Inv(s) && o in s.flushes
    ensures var k := s.flushes[o].key;
      && k in s.index && s.index[k].flushing && s.index[k].gen == s.flushes[o].gen
      && !s.index[k].durable && s.index[k].flushPin
      && Sum(s.flushes - {o}, FlushOn(k)) == 0 && Queued(s.queue, k) == 0
      && forall j :: j != k ==> Sum(s.flushes - {o}, FlushOn(j)) == Sum(s.flushes, FlushOn(j))
  {
    var k := s.flushes[o].key;
    assert FlushOk(s, o) && EntryOk(s, k) && HoldersOk(s, k);
    SumRemove(s.flushes, o, FlushOn(k));
    forall j | j != k ensures Sum(s.flushes - {o}, FlushOn(j)) == Sum(s.flushes, FlushOn(j)) {
      SumRemove(s.flushes, o, FlushOn(j));
    }
  }

  lemma {:induction false} RetireKeeps(s: Tier, o: nat, k: BlockKey)
    requires Inv(s) && o in s.flushes && k == s.flushes[o].key && k in s.index && s.index[k].hidden
    ensures Inv(FlushRetire(s, k).(flushes := s.flushes - {o}))
  {
    var u := FlushRetire(s, k).(flushes := s.flushes - {o});
    Owned(s, o);
    assert EntryOk(s, k) && HoldersOk(s, k) && SlotOk(s, k);
    forall j ensures j != k ==> SameFor(s, u, j) { }
    forall x ensures FlushFrom(s, u, k, x) { assert FlushOk(s, x); }
    forall x ensures TokenFrom(s, u, k, x) { assert TokenOk(s, x); }
    LocalKeeps(s, u, k);
  }

  lemma {:induction false} CommitKeeps(s: Tier, o: nat, k: BlockKey)
    requires Inv(s) && o in s.flushes && k == s.flushes[o].key && k in s.index && !s.index[k].hidden
    ensures Inv(FlushCommit(s, k).(flushes := s.flushes - {o}))
  {
    var u := FlushCommit(s, k).(flushes := s.flushes - {o});
    Owned(s, o);
    assert EntryOk(s, k) && HoldersOk(s, k) && SlotOk(s, k);
    forall j ensures j != k ==> SameFor(s, u, j) { }
    forall x ensures FlushFrom(s, u, k, x) { assert FlushOk(s, x); }
    forall x ensures TokenFrom(s, u, k, x) { assert TokenOk(s, x); }
    LocalKeeps(s, u, k);
  }

  lemma {:induction false} RetryKeeps(s: Tier, o: nat, k: BlockKey)
    requires Inv(s) && o in s.flushes && k == s.flushes[o].key && k in s.index && !s.index[k].hidden
    ensures Inv(FlushRetry(s, k, s.flushes[o].tries + 1).(flushes := s.flushes - {o}))
  {
    var u := FlushRetry(s, k, s.flushes[o].tries + 1).(flushes := s.flushes - {o});
    Owned(s, o);
    assert EntryOk(s, k) && HoldersOk(s, k) && SlotOk(s, k);
    var i := QueueItem(k, s.flushes[o].tries + 1);
    forall j ensures j != k ==> SameFor(s, u, j) { QueuedAppend(s.queue, i, j); }
    QueuedAppend(s.queue, i, k);
    forall x ensures FlushFrom(s, u, k, x) { assert FlushOk(s, x); }
    forall x ensures TokenFrom(s, u, k, x) { assert TokenOk(s, x); }
    LocalKeeps(s, u, k);
  }

  lemma {:induction false} FlushGiveUpKeeps(s: Tier, o: nat, k: BlockKey)
    requires Inv(s) && o in s.flushes && k == s.flushes[o].key && k in s.index && !s.index[k].hidden
    ensures Inv(FlushGiveUp(s, k).(flushes := s.flushes - {o}))
  {
    var u := FlushGiveUp(s, k).(flushes := s.flushes - {o});
    Owned(s, o);
    assert EntryOk(s, k) && HoldersOk(s, k) && SlotOk(s, k);
    forall j ensures j != k ==> SameFor(s, u, j) { }
    forall x ensures FlushFrom(s, u, k, x) { assert FlushOk(s, x); }
    forall x ensures TokenFrom(s, u, k, x) { assert TokenOk(s, x); }
    LocalKeeps(s, u, k);
  }

  // ------------------------------------------------------------ eviction

  /** What the allocator may evict is durable and held by nobody. */
  lemma {:induction false} EvictedIsDurable(s: Tier, k: BlockKey)
    requires Inv(s) && Enabled(s, Evict(k))
    ensures k in s.index && s.index[k].durable && s.index[k].sendPins == 0 && !s.index[k].hidden && !s.index[k].large
  {
    assert SlotOk(s, k) && EntryOk(s, k);
    assert k in s.writing ==> AdmissionOk(s, s.writing[k]);
  }

  lemma {:induction false} EvictKeeps(s: Tier, k: BlockKey)
    requires Inv(s) && Enabled(s, Evict(k))
    ensures Inv(AfterEvict(s, k))
  {
    var u := AfterEvict(s, k);
    EvictedIsDurable(s, k);
    assert EntryOk(s, k) && HoldersOk(s, k) && SlotOk(s, k);
    forall j ensures j != k ==> SameFor(s, u, j) { }
    forall x ensures FlushFrom(s, u, k, x) { assert FlushOk(s, x); }
    forall x ensures TokenFrom(s, u, k, x) { assert TokenOk(s, x); }
    LocalKeeps(s, u, k);
  }

  lemma {:induction false} ReclaimLargeKeeps(s: Tier, k: BlockKey)
    requires Inv(s) && Enabled(s, ReclaimLarge(k))
    ensures Inv(AfterReclaimLarge(s, k))
  {
    var u := AfterReclaimLarge(s, k);
    assert EntryOk(s, k) && HoldersOk(s, k) && SlotOk(s, k);
    forall j ensures j != k ==> SameFor(s, u, j) { }
    forall x ensures FlushFrom(s, u, k, x) { assert FlushOk(s, x); }
    forall x ensures TokenFrom(s, u, k, x) { assert TokenOk(s, x); }
    LocalKeeps(s, u, k);
  }

  // ------------------------------------------------------------ every step, every run

  lemma {:induction false} CancelKeeps(s: Tier, u: Tier, c: nat)
    requires Inv(s) && u == s.(completions := Cancel(s.completions, c), removers := u.removers)
    requires c in s.admissions && (s.admissions[c].phase == Claimed || s.admissions[c].phase == Filling)
    ensures Inv(u)
  {
    forall j ensures EntryOk(u, j) { assert EntryOk(s, j); }
    forall j ensures HoldersOk(u, j) { assert HoldersOk(s, j); }
    forall j ensures SlotOk(u, j) { assert SlotOk(s, j); }
    forall x ensures AdmissionOk(u, x) { assert AdmissionOk(s, x); }
    forall x ensures FlushOk(u, x) { assert FlushOk(s, x); }
    forall x ensures TokenOk(u, x) { assert TokenOk(s, x); }
  }

  /** Ownership does not look at the disk, the removers or how far a flusher got. */
  lemma {:induction false} SameOwners(s: Tier, u: Tier)
    requires Inv(s) && u == s.(removers := u.removers, disk := u.disk)
    ensures Inv(u)
  {
    forall j ensures EntryOk(u, j) { assert EntryOk(s, j); }
    forall j ensures HoldersOk(u, j) { assert HoldersOk(s, j); }
    forall j ensures SlotOk(u, j) { assert SlotOk(s, j); }
    forall x ensures AdmissionOk(u, x) { assert AdmissionOk(s, x); }
    forall x ensures FlushOk(u, x) { assert FlushOk(s, x); }
    forall x ensures TokenOk(u, x) { assert TokenOk(s, x); }
  }

  lemma {:induction false} FlushWriteKeeps(s: Tier, o: nat)
    requires Inv(s) && o in s.flushes
    ensures Inv(AfterFlushWrite(s, o))
  {
    var u := AfterFlushWrite(s, o);
    forall j ensures EntryOk(u, j) { assert EntryOk(s, j); }
    forall j ensures HoldersOk(u, j) {
      assert HoldersOk(s, j);
      SumUpdate(s.flushes, o, u.flushes[o], FlushOn(j));
    }
    forall j ensures SlotOk(u, j) { assert SlotOk(s, j); }
    forall x ensures AdmissionOk(u, x) { assert AdmissionOk(s, x); }
    forall x ensures FlushOk(u, x) { assert FlushOk(s, x); }
    forall x ensures TokenOk(u, x) { assert TokenOk(s, x); }
  }

  lemma {:induction false} Remove1Keeps(s: Tier, r: nat, k: BlockKey)
    requires Inv(s)
    ensures Inv(AfterRemove1(s, r, k))
  {
    var u := AfterRemove1(s, r, k);
    if k in s.writing {
      assert SlotOk(s, k);
      CancelKeeps(s, u, s.writing[k]);
    } else if k in s.index && !s.index[k].hidden {
      HideKeeps(s, k);
      SameOwners(Hide(s, k), u);
    } else {
      SameOwners(s, u);
    }
  }

  lemma {:induction false} Remove2Keeps(s: Tier, r: nat)
    requires Inv(s) && r in s.removers
    ensures Inv(AfterRemove2(s, r))
  {
    var m := s.removers[r];
    var u := AfterRemove2(s, r);
    if m.key in s.index && s.index[m.key].gen == m.gen {
      if s.index[m.key].hidden {
        assert EntryOk(s, m.key);
        assert s.index[m.key := s.index[m.key]] == s.index;
        SameOwners(s, u);
      } else {
        HideKeeps(s, m.key);
        SameOwners(Hide(s, m.key), u);
      }
    } else {
      SameOwners(s, u);
    }
  }

  lemma {:induction false} FlushDoneKeeps(s: Tier, o: nat, ok: bool)
    requires Inv(s) && o in s.flushes
    ensures Inv(AfterFlush(s, o, ok))
  {
    var k := s.flushes[o].key;
    Owned(s, o);
    if s.index[k].hidden { RetireKeeps(s, o, k); }
    else if ok { CommitKeeps(s, o, k); }
    else if s.flushes[o].tries + 1 < s.retries { RetryKeeps(s, o, k); }
    else { FlushGiveUpKeeps(s, o, k); }
  }

  lemma {:induction false} StepKeeps(s: Tier, step: Step)
    requires Inv(s) && Enabled(s, step)
    ensures Inv(Apply(s, step))
  {
    match step
    case Claim(c, k, cap, large, kind) => ClaimKeeps(s, c, k, cap, large, kind);
    case FillArena(c, ref) => FillArenaKeeps(s, c, ref);
    case FillLarge(c) => FillLargeKeeps(s, c);
    case GiveUp(c) => GiveUpKeeps(s, c);
    case Publish(c) =>
      if !s.completions[c].canceled { PublishKeeps(s, c); }
      else if s.admissions[c].kind == Reservation { ConcealKeeps(s, c); }
      else { WithdrawKeeps(s, c); }
    case Abort(c) => WithdrawKeeps(s, c);
    case ReleaseHeld(c) => ReleaseHeldKeeps(s, c);
    case Unhide(c) => UnhideKeeps(s, c);
    case Return(c) => ReturnKeeps(s, c);
    case Get(t, k) => GetKeeps(s, t, k);
    case ReleaseToken(t) => ReleaseTokenKeeps(s, t);
    case Remove1(r, k) => Remove1Keeps(s, r, k);
    case Remove2(r) => Remove2Keeps(s, r);
    case Remove3(r) => SameOwners(s, AfterRemove3(s, r));
    case Dequeue(o) => DequeueKeeps(s, o);
    case FlushWrite(o) => FlushWriteKeeps(s, o);
    case FlushDone(o, ok) => FlushDoneKeeps(s, o, ok);
    case Evict(k) => EvictKeeps(s, k);
    case ReclaimLarge(k) => ReclaimLargeKeeps(s, k);
    case DirectPut(k) => SameOwners(s, s.(disk := s.disk + {k}));
    case DiskEvict(k) => SameOwners(s, s.(disk := s.disk - {k}));
  }

  function Start(bytes: nat, largeBytes: nat, retries: nat, disk: set<BlockKey>): Tier {
    Tier(bytes, largeBytes, retries, map[], map[], [], map[], map[], map[], map[], map[], map[], disk, 0, 0, 0, 0)
  }

  lemma {:induction false} StartOk(bytes: nat, largeBytes: nat, retries: nat, disk: set<BlockKey>)
    ensures Inv(Start(bytes, largeBytes, retries, disk))
  {
    var s := Start(bytes, largeBytes, retries, disk);
    forall j ensures HoldersOk(s, j) {}
    forall j ensures SlotOk(s, j) {}
  }

  /** `trace` is a run of `steps` from its first state. */
  predicate Execution(trace: seq<Tier>, steps: seq<Step>) {
    |trace| == |steps| + 1 && forall i :: 0 <= i < |steps| ==> StepAt(trace, steps, i)
  }

  predicate StepAt(trace: seq<Tier>, steps: seq<Step>, i: nat)
    requires i < |steps| < |trace|
  {
    Enabled(trace[i], steps[i]) && trace[i + 1] == Apply(trace[i], steps[i])
  }

  lemma {:induction false} RunStep(trace: seq<Tier>, steps: seq<Step>, i: nat)
    requires Execution(trace, steps) && i < |steps|
    ensures Enabled(trace[i], steps[i]) && trace[i + 1] == Apply(trace[i], steps[i])
  {
    assert StepAt(trace, steps, i);
  }

  lemma {:induction false} ExecutionKeeps(trace: seq<Tier>, steps: seq<Step>, n: nat)
    requires Execution(trace, steps) && Inv(trace[0]) && n < |trace|
    ensures Inv(trace[n])
  {
    if n > 0 {
      ExecutionKeeps(trace, steps, n - 1);
      RunStep(trace, steps, n - 1);
      StepKeeps(trace[n - 1], steps[n - 1]);
    }
  }

  // ------------------------------------------------------------ what it means

  /** A value that is neither durable nor hidden holds its flush pin and is either queued
      once, or owned by one flusher and not queued. */
  lemma {:induction false} UnflushedIsOwnedOnce(s: Tier, k: BlockKey)
    requires Inv(s) && k in s.index && !s.index[k].durable && !s.index[k].hidden
    ensures s.index[k].flushPin
    ensures Queued(s.queue, k) + Sum(s.flushes, FlushOn(k)) == 1
    ensures !s.index[k].large ==> k in s.arena && s.arena[k].refs == s.index[k].sendPins + 1
  {
    assert EntryOk(s, k) && HoldersOk(s, k) && PinsOk(s.arena, k, s.index[k]);
  }

  /** A reader's token always names the entry it was taken on, so it can always be given back. */
  lemma {:induction false} TokenNamesEntry(s: Tier, t: nat)
    requires Inv(s) && t in s.tokens
    ensures Enabled(s, ReleaseToken(t))
    ensures s.index[s.tokens[t].key].gen == s.tokens[t].gen
    ensures var k := s.tokens[t].key; !s.index[k].large ==> k in s.arena && s.arena[k].refs > 0
  {
    var k := s.tokens[t].key;
    assert TokenOk(s, t) && EntryOk(s, k) && HoldersOk(s, k) && PinsOk(s.arena, k, s.index[k]);
    Counted(s.tokens, TokenOn(k), t);
  }

  /** `k` holds the same unflushed value in both. */
  predicate Waits(m: map<BlockKey, Entry>, n: map<BlockKey, Entry>, k: BlockKey) {
    && k in m && !m[k].durable && !m[k].hidden
    && k in n && !n[k].durable && !n[k].hidden && n[k].gen == m[k].gen
  }

  /** The step that ends the wait of `k`: its flusher wrote it or ran out of retries, or it
      is being removed. */
  predicate Ends(s: Tier, step: Step, k: BlockKey)
    requires Enabled(s, step)
  {
    match step
    case Remove1(_, j) => j == k
    case FlushDone(o, ok) => s.flushes[o].key == k && (ok || s.flushes[o].tries + 1 >= s.retries)
    case _ => false
  }

  lemma {:induction false} PublishWaits(s: Tier, c: nat, k: BlockKey)
    requires Inv(s) && Enabled(s, Publish(c)) && Waits(s.index, s.index, k)
    ensures Waits(s.index, AfterPublish(s, c).index, k)
  {
    assert AdmissionOk(s, c) && EntryOk(s, k);
  }

  lemma {:induction false} ReleaseWaits(s: Tier, j: BlockKey, k: BlockKey)
    requires Waits(s.index, s.index, k) && j in s.index && s.index[j].sendPins > 0
    ensures Waits(s.index, Unsent(s, j).index, k)
  {
  }

  lemma {:induction false} Remove1Waits(s: Tier, r: nat, j: BlockKey, k: BlockKey)
    requires Waits(s.index, s.index, k) && j != k
    ensures Waits(s.index, AfterRemove1(s, r, j).index, k)
  {
    var u := AfterRemove1(s, r, j);
    if j in s.writing {
      assert u.index == s.index;
    } else if j in s.index && !s.index[j].hidden {
      assert u.index == Hide(s, j).index;
    } else {
      assert u.index == s.index;
    }
  }

  /** The late cleanup of an old removal leaves a newly acknowledged generation alone: its
      own generation is done, a waiting one is not. */
  lemma {:induction false} Remove2Waits(s: Tier, r: nat, k: BlockKey)
    requires Inv(s) && Enabled(s, Remove2(r)) && Waits(s.index, s.index, k)
    ensures Waits(s.index, AfterRemove2(s, r).index, k)
  {
    assert EntryOk(s, k);
    var j := s.removers[r].key;
    var u := AfterRemove2(s, r);
    if !(j in s.index && s.index[j].gen == s.removers[r].gen) {
      assert u.index == s.index;
    } else if s.index[j].hidden {
      assert u.index == Settled(s, j, s.index[j], s.arena).index;
    } else {
      assert u.index == Hide(s, j).index;
    }
  }

  lemma {:induction false} FlushElsewhere(s: Tier, o: nat, ok: bool, k: BlockKey)
    requires o in s.flushes && s.flushes[o].key in s.index && k != s.flushes[o].key
    ensures SameIn(s.index, AfterFlush(s, o, ok).index, k)
  {
    var j := s.flushes[o].key;
    var u := AfterFlush(s, o, ok);
    if s.index[j].hidden { assert u.index == FlushRetire(s, j).index; }
    else if ok { assert u.index == FlushCommit(s, j).index; }
    else if s.flushes[o].tries + 1 < s.retries { }
    else { assert u.index == FlushGiveUp(s, j).index; }
  }

  lemma {:induction false} FlushWaits(s: Tier, o: nat, ok: bool, k: BlockKey)
    requires Enabled(s, FlushDone(o, ok)) && Waits(s.index, s.index, k) && !Ends(s, FlushDone(o, ok), k)
    requires s.flushes[o].key in s.index
    ensures Waits(s.index, AfterFlush(s, o, ok).index, k)
  {
    if s.flushes[o].key != k { FlushElsewhere(s, o, ok, k); }
  }

  lemma {:induction false} StepWaits(s: Tier, step: Step, k: BlockKey)
    requires Inv(s) && Enabled(s, step) && Waits(s.index, s.index, k) && !Ends(s, step, k)
    ensures Waits(s.index, Apply(s, step).index, k)
  {
    match step
    case Publish(c) => PublishWaits(s, c, k);
    case ReleaseHeld(c) => ReleaseWaits(s, s.admissions[c].key, k);
    case ReleaseToken(t) => ReleaseWaits(s, s.tokens[t].key, k);
    case Remove1(r, j) => Remove1Waits(s, r, j, k);
    case Remove2(r) => Remove2Waits(s, r, k);
    case FlushDone(o, ok) => Owned(s, o); FlushWaits(s, o, ok, k);
    case Evict(j) => EvictedIsDurable(s, j);
    case _ =>
  }

  /** Step `m` of the run does not end the wait of `k`. */
  predicate Spares(trace: seq<Tier>, steps: seq<Step>, m: nat, k: BlockKey)
    requires m < |steps| < |trace|
  {
    StepAt(trace, steps, m) && !Ends(trace[m], steps[m], k)
  }

  lemma {:induction false} RunWaits(trace: seq<Tier>, steps: seq<Step>, i: nat, n: nat, k: BlockKey)
    requires Execution(trace, steps) && Inv(trace[0]) && i <= n < |trace|
    requires Waits(trace[i].index, trace[i].index, k)
    requires forall m :: i <= m < n ==> Spares(trace, steps, m, k)
    ensures Waits(trace[i].index, trace[n].index, k)
  {
    if i < n {
      RunWaits(trace, steps, i, n - 1, k);
      ExecutionKeeps(trace, steps, n - 1);
      assert Spares(trace, steps, n - 1, k);
      StepWaits(trace[n - 1], steps[n - 1], k);
    }
  }

  /** An acknowledged value is served from RAM until its flusher has written it to disk,
      whatever else runs: no eviction, reclaim or admission takes it, and it is always
      either queued once or owned by one flusher. */
  lemma {:induction false} AcknowledgedUntilDurable(trace: seq<Tier>, steps: seq<Step>, i: nat, n: nat, k: BlockKey)
    requires Execution(trace, steps) && Inv(trace[0]) && i <= n < |trace|
    requires Waits(trace[i].index, trace[i].index, k)
    requires forall m :: i <= m < n ==> Spares(trace, steps, m, k)
    ensures Waits(trace[i].index, trace[n].index, k)
    ensures Queued(trace[n].queue, k) + Sum(trace[n].flushes, FlushOn(k)) == 1
  {
    RunWaits(trace, steps, i, n, k);
    ExecutionKeeps(trace, steps, n);
    UnflushedIsOwnedOnce(trace[n], k);
  }
}
