/** The allocator's key index: open addressing with linear probing over a power-of-two
    table, erasure by tombstone, compaction on growth. It is proved to be a finite map. */
module FlatKeyIndex {
  import opened Types

  datatype State = Empty | Occupied | Tombstone

  datatype Bucket = Bucket(state: State, key: BlockKey, value: nat)

  const NO_SLOT: nat := 0xFFFF_FFFF
  const NO_KEY := BlockKey(0, 0, 0)

  // ------------------------------------------------------------ counting

  function Count(s: seq<Bucket>, st: State): nat {
    if s == [] then 0 else Count(s[..|s| - 1], st) + (if s[|s| - 1].state == st then 1 else 0)
  }

  lemma {:induction false} CountUpdate(s: seq<Bucket>, b: nat, v: Bucket, st: State)
    requires b < |s|
    ensures Count(s[b := v], st) ==
            Count(s, st) - (if s[b].state == st then 1 else 0) + (if v.state == st then 1 else 0)
  {
    var n := |s| - 1;
    if b == n {
      assert s[b := v][..n] == s[..n];
    } else {
      assert s[b := v][..n] == s[..n][b := v];
      CountUpdate(s[..n], b, v, st);
    }
  }

  lemma {:induction false} CountPrefix(s: seq<Bucket>, i: nat, st: State)
    requires i <= |s|
    ensures Count(s[..i], st) <= Count(s, st)
  {
    if i < |s| {
      CountPrefix(s[..|s| - 1], i, st);
      assert s[..|s| - 1][..i] == s[..i];
    } else {
      assert s[..i] == s;
    }
  }

  lemma {:induction false} EmptyExists(s: seq<Bucket>)
    requires Count(s, Occupied) + Count(s, Tombstone) < |s|
    ensures exists e :: 0 <= e < |s| && s[e].state == Empty
  {
    var n := |s| - 1;
    if s[n].state != Empty {
      EmptyExists(s[..n]);
      var e :| 0 <= e < n && s[..n][e].state == Empty;
      assert s[e].state == Empty;
    }
  }

  lemma {:induction false} NoTombstone(s: seq<Bucket>, b: nat)
    requires b < |s| && Count(s, Tombstone) == 0
    ensures s[b].state != Tombstone
  {
    var n := |s| - 1;
    if b < n { NoTombstone(s[..n], b); }
  }

  lemma {:induction false} CountBlank(n: nat, st: State)
    ensures Count(seq(n, i => Bucket(Empty, NO_KEY, NO_SLOT)), st) == if st == Empty then n else 0
  {
    var s := seq(n, i => Bucket(Empty, NO_KEY, NO_SLOT));
    if n > 0 {
      assert s[..n - 1] == seq(n - 1, i => Bucket(Empty, NO_KEY, NO_SLOT));
      CountBlank(n - 1, st);
    }
  }

  // ------------------------------------------------------------ probing

  /** Table sizes: 16, 32, 64, ... so that masking a hash is taking it modulo the size. */
  predicate TableSize(n: nat) {
    n == 16 || (n > 16 && n % 2 == 0 && TableSize(n / 2))
  }

  /** The bucket `i` steps after `home`, wrapping once. */
  function At(home: nat, i: nat, n: nat): nat {
    if home + i < n then home + i else home + i - n
  }

  function Dist(home: nat, b: nat, n: nat): int {
    if home <= b then b - home else b + n - home
  }

  /** No probe that starts at `home` stops in its first `d` buckets. */
  predicate Unbroken(s: seq<Bucket>, home: nat, d: int)
    requires home < |s| && d <= |s|
  {
    forall i :: 0 <= i < d ==> s[At(home, i, |s|)].state != Empty
  }

  /** The first `d` buckets of a probe from `home` all hold keys. */
  predicate Full(s: seq<Bucket>, home: nat, d: int)
    requires home < |s| && d <= |s|
  {
    forall i :: 0 <= i < d ==> s[At(home, i, |s|)].state == Occupied
  }

  function Home(hash: BlockKey -> nat, k: BlockKey, n: nat): nat
    requires n > 0
  {
    hash(k) % n
  }

  lemma Advance(home: nat, i: nat, n: nat)
    requires home < n && i < n
    ensures (At(home, i, n) + 1) % n == At(home, i + 1, n)
  {
    var b := At(home, i, n);
    if b + 1 == n { assert (b + 1) % n == 0; } else { assert (b + 1) % n == b + 1; }
  }

  /** How far a probe goes until it must meet an empty bucket. */
  lemma {:induction false} EmptyAhead(s: seq<Bucket>, home: nat) returns (d: nat)
    requires home < |s| && Count(s, Occupied) + Count(s, Tombstone) < |s|
    ensures d < |s| && s[At(home, d, |s|)].state == Empty
  {
    EmptyExists(s);
    var e :| 0 <= e < |s| && s[e].state == Empty;
    d := Dist(home, e, |s|);
    assert At(home, d, |s|) == e;
  }

  // ------------------------------------------------------------ the table

  predicate KeyOk(s: seq<Bucket>, pos: map<BlockKey, nat>, hash: BlockKey -> nat, k: BlockKey)
    requires |s| > 0
  {
    k in pos ==>
      && pos[k] < |s| && s[pos[k]].state == Occupied && s[pos[k]].key == k
      && Unbroken(s, Home(hash, k, |s|), Dist(Home(hash, k, |s|), pos[k], |s|))
  }

  predicate BucketOk(s: seq<Bucket>, pos: map<BlockKey, nat>, b: nat) {
    b < |s| && s[b].state == Occupied ==> s[b].key in pos && pos[s[b].key] == b
  }

  /** `pos` says where each key is, exactly once, and every key is found by probing. */
  ghost predicate Table(s: seq<Bucket>, pos: map<BlockKey, nat>, hash: BlockKey -> nat) {
    && |s| > 0
    && (forall k :: KeyOk(s, pos, hash, k))
    && (forall b :: BucketOk(s, pos, b))
    && |pos| == Count(s, Occupied)
  }

  /** The finite map a table stands for. */
  function ContentsOf(s: seq<Bucket>, pos: map<BlockKey, nat>): map<BlockKey, nat> {
    map k | k in pos && pos[k] < |s| :: s[pos[k]].value
  }

  /** A key may be stored in any bucket its probe reaches. */
  lemma {:induction false} PlaceKey(s: seq<Bucket>, pos: map<BlockKey, nat>, hash: BlockKey -> nat, b: nat, k: BlockKey,
                                    v: nat)
    requires Table(s, pos, hash) && k !in pos && b < |s| && s[b].state != Occupied
    requires Unbroken(s, Home(hash, k, |s|), Dist(Home(hash, k, |s|), b, |s|))
    ensures Table(s[b := Bucket(Occupied, k, v)], pos[k := b], hash)
  {
    var t, q := s[b := Bucket(Occupied, k, v)], pos[k := b];
    forall j ensures KeyOk(t, q, hash, j) { assert KeyOk(s, pos, hash, j); }
    forall c: nat ensures BucketOk(t, q, c) {
      assert BucketOk(s, pos, c);
      if c < |t| && c != b && t[c].state == Occupied { assert KeyOk(s, pos, hash, s[c].key); }
    }
    CountUpdate(s, b, Bucket(Occupied, k, v), Occupied);
    assert q.Keys == pos.Keys + {k};
  }

  /** Erasing leaves a tombstone, so no other key's probe path breaks. */
  lemma {:induction false} EraseKey(s: seq<Bucket>, pos: map<BlockKey, nat>, hash: BlockKey -> nat, k: BlockKey)
    requires Table(s, pos, hash) && k in pos && pos[k] < |s|
    ensures Table(s[pos[k] := s[pos[k]].(state := Tombstone, value := NO_SLOT)], pos - {k}, hash)
  {
    var b := pos[k];
    var v := s[b].(state := Tombstone, value := NO_SLOT);
    var t, q := s[b := v], pos - {k};
    assert KeyOk(s, pos, hash, k);
    forall j ensures KeyOk(t, q, hash, j) { assert KeyOk(s, pos, hash, j); }
    forall c: nat ensures BucketOk(t, q, c) { assert BucketOk(s, pos, c); }
    CountUpdate(s, b, v, Occupied);
    assert pos.Keys == q.Keys + {k};
  }

  lemma {:induction false} PlaceContents(s: seq<Bucket>, pos: map<BlockKey, nat>, hash: BlockKey -> nat, b: nat,
                                         k: BlockKey, v: nat)
    requires Table(s, pos, hash) && k !in pos && b < |s| && s[b].state != Occupied
    ensures ContentsOf(s[b := Bucket(Occupied, k, v)], pos[k := b]) == ContentsOf(s, pos)[k := v]
  {
    forall j | j in pos ensures pos[j] < |s| && pos[j] != b { assert KeyOk(s, pos, hash, j); }
  }

  lemma {:induction false} EraseContents(s: seq<Bucket>, pos: map<BlockKey, nat>, hash: BlockKey -> nat, k: BlockKey,
                                         v: Bucket)
    requires Table(s, pos, hash) && k in pos && pos[k] < |s|
    ensures ContentsOf(s[pos[k] := v], pos - {k}) == ContentsOf(s, pos) - {k}
  {
    assert KeyOk(s, pos, hash, k);
    forall j | j in pos && j != k ensures pos[j] < |s| && pos[j] != pos[k] { assert KeyOk(s, pos, hash, j); }
  }

  /** The first `d` buckets of the probe of `k` do not hold it. */
  predicate Missed(s: seq<Bucket>, home: nat, k: BlockKey, d: nat)
    requires home < |s| && d <= |s|
  {
    forall i :: 0 <= i < d ==> s[At(home, i, |s|)].state != Occupied || s[At(home, i, |s|)].key != k
  }

  /** A probe that meets an empty bucket, or went all around, has seen every bucket the
      key could be in. */
  lemma {:induction false} ProbeMisses(s: seq<Bucket>, pos: map<BlockKey, nat>, hash: BlockKey -> nat, k: BlockKey,
                                       d: nat)
    requires Table(s, pos, hash) && d <= |s| && Missed(s, Home(hash, k, |s|), k, d)
    requires d == |s| || s[At(Home(hash, k, |s|), d, |s|)].state == Empty
    ensures k !in pos
  {
    var h := Home(hash, k, |s|);
    assert KeyOk(s, pos, hash, k);
    var b := if k in pos then pos[k] else 0;
    assert At(h, Dist(h, b, |s|), |s|) == b;
  }

  lemma {:induction false} Overwrite(s: seq<Bucket>, pos: map<BlockKey, nat>, hash: BlockKey -> nat, k: BlockKey,
                                     v: nat)
    requires Table(s, pos, hash) && k in pos && pos[k] < |s|
    ensures Table(s[pos[k] := s[pos[k]].(value := v)], pos, hash)
    ensures ContentsOf(s[pos[k] := s[pos[k]].(value := v)], pos) == ContentsOf(s, pos)[k := v]
    ensures forall st :: Count(s[pos[k] := s[pos[k]].(value := v)], st) == Count(s, st)
  {
    var b := pos[k];
    var w := s[b].(value := v);
    var t := s[b := w];
    forall j ensures KeyOk(t, pos, hash, j) { assert KeyOk(s, pos, hash, j); }
    forall c: nat ensures BucketOk(t, pos, c) { assert BucketOk(s, pos, c); }
    forall st ensures Count(t, st) == Count(s, st) { CountUpdate(s, b, w, st); }
    forall j | j in pos && j != k
      ensures pos[j] < |s| && pos[j] != b { assert KeyOk(s, pos, hash, j) && KeyOk(s, pos, hash, k); }
  }

  lemma {:induction false} BlankTable(n: nat, hash: BlockKey -> nat)
    requires n > 0
    ensures Table(seq(n, i => Bucket(Empty, NO_KEY, NO_SLOT)), map[], hash)
    ensures Count(seq(n, i => Bucket(Empty, NO_KEY, NO_SLOT)), Tombstone) == 0
  {
    CountBlank(n, Occupied);
    CountBlank(n, Tombstone);
  }

  /** What a rehash has moved so far: the keys found in the first `i` old buckets. */
  predicate MovedKey(s: seq<Bucket>, pos: map<BlockKey, nat>, i: nat, t: seq<Bucket>, q: map<BlockKey, nat>,
                     k: BlockKey) {
    && (k in q <==> k in pos && pos[k] < i)
    && (k in q ==> pos[k] < |s| && q[k] < |t| && t[q[k]].value == s[pos[k]].value)
  }

  ghost predicate Moved(s: seq<Bucket>, pos: map<BlockKey, nat>, i: nat, t: seq<Bucket>, q: map<BlockKey, nat>)
    requires i <= |s|
  {
    && (forall k :: MovedKey(s, pos, i, t, q, k))
    && Count(t, Occupied) == Count(s[..i], Occupied)
    && Count(t, Tombstone) == 0
  }

  lemma {:induction false} SkipOne(s: seq<Bucket>, pos: map<BlockKey, nat>, hash: BlockKey -> nat, i: nat,
                                   t: seq<Bucket>, q: map<BlockKey, nat>)
    requires Table(s, pos, hash) && i < |s| && Moved(s, pos, i, t, q) && s[i].state != Occupied
    ensures Moved(s, pos, i + 1, t, q)
  {
    assert s[..i + 1][..i] == s[..i];
    var m := i + 1;
    forall k ensures MovedKey(s, pos, m, t, q, k) { assert MovedKey(s, pos, i, t, q, k) && KeyOk(s, pos, hash, k); }
  }

  lemma {:induction false} MoveOne(s: seq<Bucket>, pos: map<BlockKey, nat>, hash: BlockKey -> nat, i: nat,
                                   t: seq<Bucket>, q: map<BlockKey, nat>, b: nat)
    requires Table(s, pos, hash) && Table(t, q, hash) && i < |s| && Moved(s, pos, i, t, q) && s[i].state == Occupied
    requires b < |t| && t[b].state == Empty
      && Unbroken(t, Home(hash, s[i].key, |t|), Dist(Home(hash, s[i].key, |t|), b, |t|))
    ensures Table(t[b := s[i]], q[s[i].key := b], hash)
    ensures Moved(s, pos, i + 1, t[b := s[i]], q[s[i].key := b])
  {
    var x := s[i];
    assert s[..i + 1][..i] == s[..i];
    assert BucketOk(s, pos, i) && MovedKey(s, pos, i, t, q, x.key);
    PlaceKey(t, q, hash, b, x.key, x.value);
    CountUpdate(t, b, x, Occupied);
    CountUpdate(t, b, x, Tombstone);
    var m, u, r := i + 1, t[b := x], q[x.key := b];
    forall k ensures MovedKey(s, pos, m, u, r, k) {
      assert MovedKey(s, pos, i, t, q, k) && KeyOk(s, pos, hash, k) && KeyOk(t, q, hash, k);
    }
  }

  lemma {:induction false} MovedAll(s: seq<Bucket>, pos: map<BlockKey, nat>, hash: BlockKey -> nat, t: seq<Bucket>,
                                    q: map<BlockKey, nat>)
    requires (s == [] && pos == map[]) || Table(s, pos, hash)
    requires Moved(s, pos, |s|, t, q)
    ensures ContentsOf(t, q) == ContentsOf(s, pos) && Count(t, Occupied) == Count(s, Occupied)
  {
    assert s[..|s|] == s;
    forall k ensures k in q <==> k in pos && pos[k] < |s| { assert MovedKey(s, pos, |s|, t, q, k); }
    forall k | k in q ensures q[k] < |t| && t[q[k]].value == s[pos[k]].value { assert MovedKey(s, pos, |s|, t, q, k); }
  }

  class FlatKeyIndex {
    const hash: BlockKey -> nat
    var entries: seq<Bucket>
    var size: nat
    var tombstones: nat
    var rehashes: nat
    ghost var pos: map<BlockKey, nat>

    ghost predicate Valid() reads this {
      if entries == [] then pos == map[] && size == 0 && tombstones == 0
      else
        && TableSize(|entries|)
        && Table(entries, pos, hash)
        && size == Count(entries, Occupied)
        && tombstones == Count(entries, Tombstone)
        && 10 * (size + tombstones) <= 7 * |entries|
    }

    ghost function Contents(): map<BlockKey, nat> reads this {
      ContentsOf(entries, pos)
    }

    /** The number of keys; with the tombstones it always stays below the capacity. */
    method Size() returns (n: nat)
      requires Valid()
      ensures n == |Contents()|
      ensures entries != [] ==> n + tombstones < |entries|
    {
      forall k | k in pos ensures k in Contents() { assert entries != [] && KeyOk(entries, pos, hash, k); }
      assert Contents().Keys == pos.Keys;
      n := size;
    }

    constructor (hash: BlockKey -> nat)
      ensures Valid() && Contents() == map[] && this.hash == hash
    {
      this.hash := hash;
      entries, size, tombstones, rehashes, pos := [], 0, 0, 0, map[];
    }

    /** Walks the probe of `key` until it is found, an empty bucket ends it, or it went all
        around the table. */
    static method Probe(table: seq<Bucket>, ghost pos: map<BlockKey, nat>, hash: BlockKey -> nat, key: BlockKey)
      returns (r: Option<nat>)
      requires (table == [] && pos == map[]) || Table(table, pos, hash)
      ensures r == if key in pos then Some(pos[key]) else None
      ensures r.Some? ==> r.value < |table|
    {
      if table == [] { return None; }
      var n := |table|;
      ghost var h := Home(hash, key, n);
      var bucket := hash(key) % n;
      var probed := 0;
      while probed < n
        invariant probed <= n
        invariant probed < n ==> bucket == At(h, probed, n)
        invariant Missed(table, h, key, probed)
      {
        if table[bucket].state == Empty {
          ProbeMisses(table, pos, hash, key, probed);
          return None;
        }
        if table[bucket].state == Occupied && table[bucket].key == key {
          assert BucketOk(table, pos, bucket);
          return Some(bucket);
        }
        Advance(h, probed, n);
        bucket := (bucket + 1) % n;
        probed := probed + 1;
      }
      ProbeMisses(table, pos, hash, key, n);
      return None;
    }

    /** The bucket that holds `key`, if any. */
    method Find(key: BlockKey) returns (r: Option<nat>)
      requires Valid()
      ensures r.Some? <==> key in Contents()
      ensures r.Some? ==>
        r.value < |entries| && key in pos && pos[key] == r.value && entries[r.value].value == Contents()[key]
    {
      r := Probe(entries, pos, hash, key);
    }

    /** Removes `key`; reports whether it was there. */
    method Erase(key: BlockKey) returns (found: bool)
      requires Valid()
      modifies this
      ensures Valid()
      ensures found == (key in old(Contents()))
      ensures Contents() == old(Contents()) - {key}
    {
      var r := Probe(entries, pos, hash, key);
      if r.None? { return false; }
      var erased := entries[r.value].(state := Tombstone, value := NO_SLOT);
      EraseKey(entries, pos, hash, key);
      EraseContents(entries, pos, hash, key, erased);
      CountUpdate(entries, r.value, erased, Occupied);
      CountUpdate(entries, r.value, erased, Tombstone);
      assert KeyOk(entries, pos, hash, key);
      entries, pos := entries[r.value := erased], pos - {key};
      size, tombstones := size - 1, tombstones + 1;
      return true;
    }

    /** The first unoccupied bucket on the probe of `key` in a table without tombstones; a
        table with fewer keys than buckets has one. */
    static method FreeBucket(table: seq<Bucket>, hash: BlockKey -> nat, key: BlockKey) returns (bucket: nat)
      requires |table| > 0 && Count(table, Occupied) + Count(table, Tombstone) < |table|
      ensures bucket < |table| && table[bucket].state != Occupied
      ensures Unbroken(table, Home(hash, key, |table|), Dist(Home(hash, key, |table|), bucket, |table|))
    {
      var n := |table|;
      ghost var h := Home(hash, key, n);
      ghost var d := EmptyAhead(table, h);
      ghost var i := 0;
      bucket := hash(key) % n;
      while table[bucket].state == Occupied
        invariant 0 <= i <= d < n && bucket == At(h, i, n)
        invariant Unbroken(table, h, i)
        decreases d - i
      {
        Advance(h, i, n);
        bucket := (bucket + 1) % n;
        i := i + 1;
      }
      assert Dist(h, bucket, n) == i;
    }

    /** Moves the occupied entries to a fresh table, in table order. */
    static method Compact(old_: seq<Bucket>, ghost pos: map<BlockKey, nat>, hash: BlockKey -> nat, capacity: nat)
      returns (replacement: seq<Bucket>, ghost q: map<BlockKey, nat>)
      requires (old_ == [] && pos == map[]) || Table(old_, pos, hash)
      requires Count(old_, Occupied) < capacity
      ensures |replacement| == capacity && Table(replacement, q, hash)
      ensures ContentsOf(replacement, q) == ContentsOf(old_, pos)
      ensures Count(replacement, Occupied) == Count(old_, Occupied) && Count(replacement, Tombstone) == 0
    {
      replacement := seq(capacity, i => Bucket(Empty, NO_KEY, NO_SLOT));
      q := map[];
      BlankTable(capacity, hash);
      for i := 0 to |old_|
        invariant |replacement| == capacity && Table(replacement, q, hash)
        invariant Moved(old_, pos, i, replacement, q)
      {
        if old_[i].state == Occupied {
          CountPrefix(old_, i, Occupied);
          var bucket := FreeBucket(replacement, hash, old_[i].key);
          NoTombstone(replacement, bucket);
          MoveOne(old_, pos, hash, i, replacement, q, bucket);
          replacement := replacement[bucket := old_[i]];
          q := q[old_[i].key := bucket];
        } else {
          SkipOne(old_, pos, hash, i, replacement, q);
        }
      }
      MovedAll(old_, pos, hash, replacement, q);
    }

    method Rehash(requested: nat)
      requires Valid() && 10 * size <= 7 * requested
      modifies this
      ensures Valid() && Contents() == old(Contents())
      ensures tombstones == 0 && size == old(size) && |entries| >= requested && entries != []
    {
      var capacity := 16;
      while capacity < requested
        invariant TableSize(capacity)
        decreases requested - capacity
        modifies {}
      {
        capacity := capacity * 2;
      }
      ghost var q;
      entries, q := Compact(entries, pos, hash, capacity);
      pos := q;
      tombstones := 0;
      rehashes := rehashes + 1;
    }

    /** Makes room for `expected` keys without breaking any of them. */
    method Reserve(expected: nat)
      requires Valid()
      modifies this
      ensures Valid() && Contents() == old(Contents()) && size == old(size) && entries != []
      ensures size <= expected ==> 10 * (expected + tombstones) <= 7 * |entries|
    {
      var capacity := if entries == [] then 16 else |entries|;
      while expected > (capacity * 7) / 10
        invariant TableSize(capacity) && capacity >= |entries|
        decreases expected - (capacity * 7) / 10
        modifies {}
      {
        capacity := capacity * 2;
      }
      if entries == [] || capacity != |entries| ||
         (tombstones != 0 && (expected + tombstones > (capacity * 7) / 10 || tombstones > capacity / 4)) {
        Rehash(capacity);
      }
    }

    /** Where a new key goes: the first tombstone its probe meets, or else the empty bucket
        that ends the probe. */
    static method Vacancy(table: seq<Bucket>, hash: BlockKey -> nat, key: BlockKey) returns (target: nat)
      requires |table| > 0 && Count(table, Occupied) + Count(table, Tombstone) < |table|
      ensures target < |table| && table[target].state != Occupied
      ensures Full(table, Home(hash, key, |table|), Dist(Home(hash, key, |table|), target, |table|))
    {
      var n := |table|;
      ghost var h := Home(hash, key, n);
      var bucket := hash(key) % n;
      var tombstone: nat := n;
      ghost var i := 0;
      ghost var free := EmptyAhead(table, h);
      while table[bucket].state != Empty
        invariant 0 <= i <= free < n && bucket == At(h, i, n)
        invariant tombstone == n ==> Full(table, h, i)
        invariant tombstone != n ==>
          && tombstone < n && table[tombstone].state == Tombstone && Dist(h, tombstone, n) < i
          && Full(table, h, Dist(h, tombstone, n))
        decreases free - i
      {
        assert Dist(h, bucket, n) == i;
        if table[bucket].state == Tombstone && tombstone == n { tombstone := bucket; }
        Advance(h, i, n);
        bucket := (bucket + 1) % n;
        i := i + 1;
      }
      assert Dist(h, bucket, n) == i;
      target := if tombstone == n then bucket else tombstone;
    }

    /** Stores `value` under `key`; reports whether the key is new, and then never fails. */
    method Insert(key: BlockKey, value: nat) returns (isNew: bool)
      requires Valid()
      modifies this
      ensures Valid()
      ensures isNew == (key !in old(Contents()))
      ensures Contents() == old(Contents())[key := value]
    {
      var existing := Find(key);
      if existing.Some? {
        Overwrite(entries, pos, hash, key, value);
        entries := entries[existing.value := entries[existing.value].(value := value)];
        return false;
      }
      Reserve(size + 1);
      PlaceNew(key, value);
      return true;
    }

    /** The end of an insertion, once there is room. */
    method PlaceNew(key: BlockKey, value: nat)
      requires Valid() && entries != [] && key !in Contents()
      requires 10 * (size + 1 + tombstones) <= 7 * |entries|
      modifies this
      ensures Valid() && Contents() == old(Contents())[key := value]
    {
      var target := Vacancy(entries, hash, key);
      var fresh_ := Bucket(Occupied, key, value);
      assert KeyOk(entries, pos, hash, key);
      PlaceKey(entries, pos, hash, target, key, value);
      PlaceContents(entries, pos, hash, target, key, value);
      CountUpdate(entries, target, fresh_, Occupied);
      CountUpdate(entries, target, fresh_, Tombstone);
      if entries[target].state == Tombstone { tombstones := tombstones - 1; }
      entries, pos := entries[target := fresh_], pos[key := target];
      size := size + 1;
    }
  }
}
