/** Draining one bucket of the retention wheel. */
module RetentionDrain {
  import opened Types
  import opened Lifecycle
  import opened SlabPool
  import opened SlabInvariant
  import opened SlabKeeps
  import opened SlabShape
  import opened SizeClasses
  import opened Wheel

  /** After the first `i` entries of the bucket. */
  ghost predicate DrainSoFar(g: Geometry, p: Pool, q: Pool, owner: Owner, bucket: seq<Entry>, now: nat, i: nat)
    requires SizeClasses.Sound(g)
  {
    && i <= |bucket|
    && SlabInvariant.Sound(q, owner) && Shaped(g, q.classes) && SameShape(p, q) && (Lru(p) ==> Lru(q))
    && q.residents == Unkept(p.residents, bucket[..i], now)
  }

  /** One more entry; one that ends a protection lowers the counters with it. */
  lemma {:induction false} DrainNext(g: Geometry, p: Pool, q: Pool, owner: Owner, bucket: seq<Entry>, now: nat, i: nat)
    requires SizeClasses.Sound(g) && DrainSoFar(g, p, q, owner, bucket, now, i) && i < |bucket|
    ensures Ends(q.residents, bucket[i], now) ==> InPool(q, q.residents[bucket[i].key].ref)
    ensures var e := bucket[i]; var j := i + 1;
      DrainSoFar(g, p, if Ends(q.residents, e, now) then Revised(q, e.key, Unprotected(q.residents[e.key])) else q,
                 owner, bucket, now, j)
  {
    var e := bucket[i];
    assert bucket[..i + 1][..i] == bucket[..i];
    if Ends(q.residents, e, now) {
      assert KeyOk(q, owner, e.key);
      ReviseFacts(g, q, owner, e.key, Unprotected(q.residents[e.key]));
    }
  }

  /** One pass over a bucket. Entries that are not due are kept for a later lap; a due entry
      ends the protection it stands for unless the deadline has moved since. */
  method DrainBucket(g: Geometry, p: Pool, ghost owner: Owner, bucket: seq<Entry>, now: nat)
    returns (q: Pool, keep: seq<Entry>)
    requires SizeClasses.Sound(g) && Shaped(g, p.classes) && SlabInvariant.Sound(p, owner)
    ensures SlabInvariant.Sound(q, owner) && Shaped(g, q.classes) && SameShape(p, q) && (Lru(p) ==> Lru(q))
    ensures q.residents == Unkept(p.residents, bucket, now) && keep == Kept(bucket, now)
    ensures Drained(p.residents, q.residents, bucket, keep, now)
  {
    q, keep := p, [];
    for i := 0 to |bucket|
      invariant DrainSoFar(g, p, q, owner, bucket, now, i)
      invariant keep == Kept(bucket[..i], now)
    {
      var e := bucket[i];
      assert bucket[..i + 1][..i] == bucket[..i];
      DrainNext(g, p, q, owner, bucket, now, i);
      if e.until > now {
        keep := keep + [e];
      } else if e.key in q.residents && q.residents[e.key].until == e.until && e.until != 0 {
        q := Revised(q, e.key, Unprotected(q.residents[e.key]));
      }
    }
    assert bucket[..|bucket|] == bucket;
    UnkeptDrains(p.residents, bucket, now);
  }

  /** The buckets of every tick after `start` up to `target`. */
  method DrainTicks(g: Geometry, p: Pool, ghost owner: Owner, buckets: seq<seq<Entry>>, now: nat, start: nat,
                    target: nat)
    returns (q: Pool, wheel: seq<seq<Entry>>)
    requires SizeClasses.Sound(g) && Shaped(g, p.classes) && SlabInvariant.Sound(p, owner)
    requires buckets != [] && start <= target
    ensures SlabInvariant.Sound(q, owner) && Shaped(g, q.classes) && SameShape(p, q) && (Lru(p) ==> Lru(q))
    ensures Drain(q.residents, wheel) == Drains(Drain(p.residents, buckets), now, start, target)
  {
    q, wheel := p, buckets;
    var tick := start;
    while tick < target
      invariant start <= tick <= target && |wheel| == |buckets|
      invariant SlabInvariant.Sound(q, owner) && Shaped(g, q.classes) && SameShape(p, q) && (Lru(p) ==> Lru(q))
      invariant Drains(Drain(q.residents, wheel), now, tick, target) == Drains(Drain(p.residents, buckets), now, start,
          target)
    {
      ghost var d := Drain(q.residents, wheel);
      var b := (tick + 1) % |wheel|;
      var keep;
      q, keep := DrainBucket(g, q, owner, wheel[b], now);
      wheel := wheel[b := keep];
      assert Drain(q.residents, wheel) == DrainOne(d, now, tick);
      tick := tick + 1;
    }
  }

  function ReleasedKeys(p: Pool, q: Pool): set<BlockKey> {
    set k | k in p.residents && k in q.residents && p.residents[k].until != 0 && q.residents[k].until == 0
  }

  /** Clients see an expiry. */
  lemma {:induction false} ReleasesIsExpired(p: Pool, q: Pool, now: nat)
    requires Releases(p.residents, q.residents, now)
    ensures Step(Seen(p), Expired(ReleasedKeys(p, q), now), Seen(q))
  {
    forall k ensures k in p.residents <==> k in q.residents { assert Released1(p.residents, q.residents, now, k); }
    forall k | k in p.residents
      ensures q.residents[k] == p.residents[k]
        || (0 < p.residents[k].until <= now && q.residents[k] == Unprotected(p.residents[k]))
    {
      assert Released1(p.residents, q.residents, now, k);
    }
  }
}
