/** The retention timing wheel: one bucket per ten seconds, drained only once its whole
    window has passed. */
module Wheel {
  import opened Types
  import opened SlabPool
  import SizeClasses

  const TICK: nat := 10

  datatype Entry = Entry(key: BlockKey, until: nat)

  /** `tick` is the last fully drained ten-second tick and `now` the monotone clock. */
  datatype Retention = Retention(
    enabled: bool, budget: nat, classPct: nat, maxTtl: nat,
    now: nat, tick: nat, wheel: seq<seq<Entry>>)

  function Bucket(wheel: seq<seq<Entry>>, until: nat): seq<Entry>
    requires wheel != []
  {
    wheel[(until / TICK) % |wheel|]
  }

  /** A protected resident has an entry for its current deadline in a tick still to come. */
  predicate Timed(residents: map<BlockKey, Meta>, r: Retention, k: BlockKey) {
    k in residents && residents[k].until != 0 ==>
      && r.enabled && r.wheel != []
      && residents[k].until / TICK > r.tick
      && Entry(k, residents[k].until) in Bucket(r.wheel, residents[k].until)
  }

  /** One bucket more than the longest lifetime needs. */
  predicate WheelShape(r: Retention) {
    && r.now <= SizeClasses.UINT32_MAX
    && (r.enabled ==> r.maxTtl > 0 && |r.wheel| == r.maxTtl / TICK + 2)
    && (!r.enabled ==> r.wheel == [])
  }

  /** Every protection has its entry, and the tick of the next second is still to come. */
  ghost predicate WheelOk(residents: map<BlockKey, Meta>, r: Retention) {
    && (forall k :: Timed(residents, r, k))
    && WheelShape(r)
    && (r.enabled ==> r.tick < (r.now + 1) / TICK)
  }

  function PushWheel(r: Retention, k: BlockKey, until: nat): Retention {
    if r.wheel == [] then r
    else r.(wheel := r.wheel[(until / TICK) % |r.wheel| := Bucket(r.wheel, until) + [Entry(k, until)]])
  }

  /** Dropping residents, or changing anything but deadlines, leaves the wheel in order. */
  lemma {:induction false} WheelKept(timely: bool, m: map<BlockKey, Meta>, n: map<BlockKey, Meta>, r: Retention)
    requires timely ==> WheelOk(m, r)
    requires forall k :: k in n && n[k].until != 0 ==> k in m && m[k].until == n[k].until
    ensures timely ==> WheelOk(n, r)
  {
    forall k | timely ensures Timed(n, r, k) { assert Timed(m, r, k); }
  }

  /** A new deadline in a tick still to come, with its wheel entry. */
  lemma {:induction false} WheelPushed(m: map<BlockKey, Meta>, r: Retention, k: BlockKey, n: Meta)
    requires WheelOk(m, r) && r.enabled && n.until / TICK > r.tick
    ensures WheelOk(m[k := n], PushWheel(r, k, n.until))
  {
    var s, t := PushWheel(r, k, n.until), m[k := n];
    forall j ensures Timed(t, s, j) { assert Timed(m, r, j); }
  }

  function Lower(a: nat, b: nat): (r: nat)
    ensures r <= a && r <= b && (r == a || r == b)
  {
    if a < b then a else b
  }

  function Higher(a: nat, b: nat): (r: nat)
    ensures r >= a && r >= b && (r == a || r == b)
  {
    if a > b then a else b
  }

  /** The lifetime a request asks for, within the cap: a refresh renews the stored one, a set can
      only raise it. */
  function Lifetime(maxTtl: nat, stored: nat, ttl: nat, refresh: bool): (life: nat)
    ensures life <= maxTtl && life >= Lower(stored, maxTtl)
    ensures refresh ==> life == Lower(stored, maxTtl)
    ensures !refresh ==> life == Higher(Lower(stored, maxTtl), Lower(ttl, maxTtl))
  {
    var s, q := Lower(stored, maxTtl), Lower(ttl, maxTtl);
    if refresh || q < s then s else q
  }

  /** The deadline of a lifetime that starts now; it never moves back, and it lies ahead unless
      the clock has reached its end. */
  function Deadline(now: nat, life: nat, was: nat): (until: nat)
    ensures until == Higher(was, Lower(now + life, SizeClasses.UINT32_MAX))
    ensures now < SizeClasses.UINT32_MAX && life > 0 ==> now < until
    ensures now == SizeClasses.UINT32_MAX ==> now <= until
  {
    var candidate := if now + life < SizeClasses.UINT32_MAX then now + life else SizeClasses.UINT32_MAX;
    if candidate > was then candidate else was
  }

  /** A deadline ahead of the clock, or at its end, is in a tick still to come. */
  lemma {:induction false} TickAhead(tick: nat, now: nat, until: nat)
    requires tick < (now + 1) / TICK && now <= SizeClasses.UINT32_MAX
    requires now < until || (now == SizeClasses.UINT32_MAX && now <= until)
    ensures tick < until / TICK
  {
    if now < until { assert (now + 1) / TICK <= until / TICK; }
    else { assert (SizeClasses.UINT32_MAX + 1) / TICK == SizeClasses.UINT32_MAX / TICK; }
  }

  /** A deadline that moves ahead gets its entry; one that stays needs none. */
  lemma {:induction false} WheelMoved(timely: bool, m: map<BlockKey, Meta>, r: Retention, k: BlockKey, n: Meta)
    requires (timely ==> WheelOk(m, r)) && r.enabled && k in m && r.now <= SizeClasses.UINT32_MAX
    requires r.now < n.until || (r.now == SizeClasses.UINT32_MAX && r.now <= n.until)
    ensures timely ==> WheelOk(m[k := n], if n.until != m[k].until then PushWheel(r, k, n.until) else r)
  {
    if n.until == m[k].until {
      WheelKept(timely, m, m[k := n], r);
    } else if timely {
      TickAhead(r.tick, r.now, n.until);
      WheelPushed(m, r, k, n);
    }
  }

  /** The clock never runs backwards. */
  lemma {:induction false} WheelLater(m: map<BlockKey, Meta>, r: Retention, now: nat)
    requires WheelOk(m, r) && r.now <= now <= SizeClasses.UINT32_MAX
    ensures WheelOk(m, r.(now := now))
  {
    forall k ensures Timed(m, r.(now := now), k) { assert Timed(m, r, k); }
    assert (r.now + 1) / TICK <= (now + 1) / TICK;
  }

  // ------------------------------------------------------------ draining

  /** The last tick whose whole window lies before `now`. */
  function Target(now: nat): nat {
    if now / TICK == 0 then 0 else now / TICK - 1
  }

  /** Protections only end, only those whose deadline has come, and nothing else changes. */
  predicate Released1(m: map<BlockKey, Meta>, n: map<BlockKey, Meta>, now: nat, k: BlockKey) {
    && (k in n <==> k in m)
    && (k in m ==> n[k] == m[k] || (0 < m[k].until <= now && n[k] == m[k].(until := 0, referenced := false)))
  }

  ghost predicate Releases(m: map<BlockKey, Meta>, n: map<BlockKey, Meta>, now: nat) {
    forall k :: Released1(m, n, now, k)
  }

  lemma {:induction false} ReleasesMore(m: map<BlockKey, Meta>, n: map<BlockKey, Meta>, o: map<BlockKey, Meta>,
                                        now: nat)
    requires Releases(m, n, now) && Releases(n, o, now)
    ensures Releases(m, o, now)
  {
    forall k ensures Released1(m, o, now, k) { assert Released1(m, n, now, k) && Released1(n, o, now, k); }
  }

  /** Back to ordinary eviction, without leftover reference credit. */
  function Unprotected(m: Meta): Meta {
    m.(until := 0, referenced := false)
  }

  /** Whether a bucket's entry ends a protection: it is due and the deadline has not moved. */
  predicate Ends(m: map<BlockKey, Meta>, e: Entry, now: nat) {
    0 < e.until <= now && e.key in m && m[e.key].until == e.until
  }

  /** The residents after a pass over a bucket. */
  function Unkept(m: map<BlockKey, Meta>, bucket: seq<Entry>, now: nat): map<BlockKey, Meta> {
    if bucket == [] then m
    else
      var e, n := bucket[|bucket| - 1], Unkept(m, bucket[..|bucket| - 1], now);
      if Ends(n, e, now) then n[e.key := Unprotected(n[e.key])] else n
  }

  /** What a pass over a bucket leaves in it. */
  function Kept(bucket: seq<Entry>, now: nat): seq<Entry> {
    if bucket == [] then []
    else
      var e, rest := bucket[|bucket| - 1], Kept(bucket[..|bucket| - 1], now);
      if e.until > now then rest + [e] else rest
  }

  datatype Drain = Drain(residents: map<BlockKey, Meta>, wheel: seq<seq<Entry>>)

  /** The buckets of the ticks after `tick` up to `target`, in order. */
  function Drains(d: Drain, now: nat, tick: nat, target: nat): Drain
    requires d.wheel != []
    decreases target - tick
  {
    if tick >= target then d else Drains(DrainOne(d, now, tick), now, tick + 1, target)
  }

  function DrainOne(d: Drain, now: nat, tick: nat): Drain
    requires d.wheel != []
  {
    var b := (tick + 1) % |d.wheel|;
    Drain(Unkept(d.residents, d.wheel[b], now), d.wheel[b := Kept(d.wheel[b], now)])
  }

  /** Where a drain starts: after a stall of more than a lap one lap is enough. */
  function StartTick(r: Retention): nat {
    if Target(r.now) > r.tick && Target(r.now) - r.tick > |r.wheel| then Target(r.now) - |r.wheel| else r.tick
  }

  /** The expiry: drains every tick whose whole window has passed. */
  function AfterExpire(m: map<BlockKey, Meta>, r: Retention): (map<BlockKey, Meta>, Retention) {
    if r.wheel == [] || Target(r.now) <= r.tick then (m, r)
    else
      var d := Drains(Drain(m, r.wheel), r.now, StartTick(r), Target(r.now));
      (d.residents, r.(wheel := d.wheel, tick := Target(r.now)))
  }

  /** No tick after `start` up to `tick` falls on the bucket of `t`. */
  predicate Unvisited(t: nat, n: nat, start: nat, tick: nat)
    requires n > 0
  {
    forall x :: start < x <= tick ==> x % n != t % n
  }

  /** In the middle of a drain from `start`: entries are still in place, and an overdue
      resident is still protected only if its bucket has not been visited. */
  predicate MidDrain(m: map<BlockKey, Meta>, wheel: seq<seq<Entry>>, now: nat, start: nat, tick: nat, k: BlockKey) {
    k in m && m[k].until != 0 ==>
      && wheel != [] && Entry(k, m[k].until) in Bucket(wheel, m[k].until)
      && (m[k].until <= now ==> Unvisited(m[k].until / TICK, |wheel|, start, tick))
  }

  /** Bucket `b` has been drained: what is due is released and what is kept is not due. */
  ghost predicate Drained(m: map<BlockKey, Meta>, n: map<BlockKey, Meta>, bucket: seq<Entry>, keep: seq<Entry>,
                          now: nat) {
    && Releases(m, n, now)
    && (forall i :: 0 <= i < |bucket| ==> Settled1(n, bucket[i], keep, now))
  }

  predicate Settled1(n: map<BlockKey, Meta>, e: Entry, keep: seq<Entry>, now: nat) {
    if e.until > now then e in keep
    else e.until != 0 ==> !(e.key in n && n[e.key].until == e.until)
  }

  lemma {:induction false} UnkeptDrains(m: map<BlockKey, Meta>, bucket: seq<Entry>, now: nat)
    ensures Drained(m, Unkept(m, bucket, now), bucket, Kept(bucket, now), now)
  {
    if bucket == [] {
      forall k ensures Released1(m, m, now, k) { }
    } else {
      var last := |bucket| - 1;
      var b, e := bucket[..last], bucket[last];
      UnkeptDrains(m, b, now);
      var n, keep := Unkept(m, b, now), Kept(b, now);
      var n1, keep1 := Unkept(m, bucket, now), Kept(bucket, now);
      forall k ensures Released1(m, n1, now, k) { assert Released1(m, n, now, k); }
      forall i | 0 <= i < last ensures Settled1(n1, bucket[i], keep1, now) { assert Settled1(n, b[i], keep, now); }
    }
  }

  lemma {:induction false} DrainStep(m: map<BlockKey, Meta>, n: map<BlockKey, Meta>, wheel: seq<seq<Entry>>,
                                     keep: seq<Entry>,
                                    now: nat, start: nat, tick: nat, k: BlockKey)
    requires wheel != [] && MidDrain(m, wheel, now, start, tick, k)
    requires Drained(m, n, wheel[(tick + 1) % |wheel|], keep, now)
    ensures MidDrain(n, wheel[(tick + 1) % |wheel| := keep], now, start, tick + 1, k)
  {
    assert Released1(m, n, now, k);
    if k in n && n[k].until != 0 {
      var b, t := (tick + 1) % |wheel|, n[k].until / TICK;
      if t % |wheel| == b {
        var i :| 0 <= i < |wheel[b]| && wheel[b][i] == Entry(k, n[k].until);
        assert Settled1(n, wheel[b][i], keep, now);
      }
    }
  }

  lemma {:induction false} ModShift(t: nat, q: nat, n: nat)
    requires n > 0
    ensures (t + q * n) % n == t % n
  {
    if q > 0 {
      ModShift(t, q - 1, n);
      assert t + q * n == (t + (q - 1) * n) + n;
      ModOnce(t + (q - 1) * n, n);
    }
  }

  lemma {:induction false} ModOnce(x: nat, n: nat)
    requires n > 0
    ensures (x + n) % n == x % n
  {
    var d, r := x / n, x % n;
    assert x == d * n + r;
    assert x + n == (d + 1) * n + r;
    ModUnique(x + n, d + 1, r, n);
  }

  lemma {:induction false} ModUnique(x: nat, d: nat, r: nat, n: nat)
    requires n > 0 && x == d * n + r && r < n
    ensures x % n == r
  {
    var e, s := x / n, x % n;
    assert x == e * n + s;
    if d < e { SizeClasses.MulGap(d, e, n); }
    if e < d { SizeClasses.MulGap(e, d, n); }
  }

  /** One full lap visits every bucket. */
  lemma {:induction false} LapHits(t: nat, target: nat, n: nat) returns (x: nat)
    requires n > 0 && t <= target
    ensures x <= target < x + n && t <= x && x % n == t % n
  {
    var d := target - t;
    var q, r := d / n, d % n;
    assert d == q * n + r;
    x := target - r;
    assert x == t + q * n;
    ModShift(t, q, n);
  }

  lemma {:induction false} Visited(t: nat, n: nat, tick: nat, start: nat, target: nat)
    requires n > 0 && tick < t <= target && start == (if target - tick > n then target - n else tick)
    ensures !Unvisited(t, n, start, target)
  {
    var x := LapHits(t, target, n);
    var y := if t > start then t else x;
    assert start < y <= target && y % n == t % n;
  }

  /** When the drain is over, nothing protected is in a drained tick, so nothing is overdue by
      a whole tick: whether the wheel was read tick by tick or one lap after a long stall. */
  lemma {:induction false} DrainEnds(m: map<BlockKey, Meta>, wheel: seq<seq<Entry>>, now: nat, tick: nat, start: nat,
                                     k: BlockKey)
    requires wheel != [] && k in m && m[k].until != 0
    requires start == (if Target(now) - tick > |wheel| then Target(now) - |wheel| else tick)
    requires m[k].until / TICK > tick && tick < Target(now) && MidDrain(m, wheel, now, start, Target(now), k)
    ensures m[k].until / TICK > Target(now) && now < m[k].until + TICK
  {
    var t := m[k].until / TICK;
    assert t <= Target(now) ==> m[k].until <= now;
    if t <= Target(now) { Visited(t, |wheel|, tick, start, Target(now)); }
  }

  lemma {:induction false} AtMostOneTick(until: nat, now: nat)
    requires until / TICK > Target(now)
    ensures now < until + TICK
  {
  }

  /** After the last bucket the wheel is in order again, up to the target tick. */
  lemma {:induction false} WheelDrained(m: map<BlockKey, Meta>, n: map<BlockKey, Meta>, r: Retention,
                                        wheel: seq<seq<Entry>>, start: nat)
    requires WheelOk(m, r) && r.enabled && Releases(m, n, r.now) && |wheel| == |r.wheel| && r.tick < Target(r.now)
    requires start == (if Target(r.now) - r.tick > |wheel| then Target(r.now) - |wheel| else r.tick)
    requires forall k :: MidDrain(n, wheel, r.now, start, Target(r.now), k)
    ensures WheelOk(n, r.(wheel := wheel, tick := Target(r.now)))
    ensures forall k :: k in n && n[k].until != 0 ==> r.now < n[k].until + TICK
  {
    var s := r.(wheel := wheel, tick := Target(r.now));
    forall k ensures Timed(n, s, k) {
      assert Timed(m, r, k) && Released1(m, n, r.now, k) && MidDrain(n, wheel, r.now, start, Target(r.now), k);
      if k in n && n[k].until != 0 { DrainEnds(n, wheel, r.now, r.tick, start, k); }
    }
    forall k | k in n && n[k].until != 0 ensures r.now < n[k].until + TICK {
      assert Timed(n, s, k);
      AtMostOneTick(n[k].until, r.now);
    }
  }

  lemma {:induction false} DrainsReleases(d: Drain, now: nat, tick: nat, target: nat)
    requires d.wheel != []
    ensures var e := Drains(d, now, tick, target); |e.wheel| == |d.wheel| && Releases(d.residents, e.residents, now)
    decreases target - tick
  {
    if tick < target {
      var c := DrainOne(d, now, tick);
      UnkeptDrains(d.residents, d.wheel[(tick + 1) % |d.wheel|], now);
      DrainsReleases(c, now, tick + 1, target);
      ReleasesMore(d.residents, c.residents, Drains(c, now, tick + 1, target).residents, now);
    } else {
      forall k ensures Released1(d.residents, d.residents, now, k) { }
    }
  }

  lemma {:induction false} DrainsVisit(d: Drain, now: nat, start: nat, tick: nat, target: nat, k: BlockKey)
    requires d.wheel != [] && start <= tick <= target && MidDrain(d.residents, d.wheel, now, start, tick, k)
    ensures var e := Drains(d, now, tick, target); MidDrain(e.residents, e.wheel, now, start, target, k)
    decreases target - tick
  {
    if tick < target {
      var b := (tick + 1) % |d.wheel|;
      UnkeptDrains(d.residents, d.wheel[b], now);
      DrainStep(d.residents, Unkept(d.residents, d.wheel[b], now), d.wheel, Kept(d.wheel[b], now), now, start, tick, k);
      DrainsVisit(DrainOne(d, now, tick), now, start, tick + 1, target, k);
    }
  }

  /** An expiry keeps the wheel in order and leaves nothing overdue by a whole tick. */
  lemma {:induction false} ExpireKeeps(m: map<BlockKey, Meta>, r: Retention)
    requires WheelOk(m, r)
    ensures var (n, s) := AfterExpire(m, r);
      && WheelOk(n, s) && Releases(m, n, r.now) && s.now == r.now
      && forall k :: k in n && n[k].until != 0 ==> r.now < n[k].until + TICK
  {
    if r.wheel == [] || Target(r.now) <= r.tick {
      forall k ensures Released1(m, m, r.now, k) { }
      forall k | k in m && m[k].until != 0 ensures r.now < m[k].until + TICK {
        assert Timed(m, r, k);
        AtMostOneTick(m[k].until, r.now);
      }
    } else {
      var d, start := Drain(m, r.wheel), StartTick(r);
      var e := Drains(d, r.now, start, Target(r.now));
      DrainsReleases(d, r.now, start, Target(r.now));
      forall k ensures MidDrain(e.residents, e.wheel, r.now, start, Target(r.now), k) {
        assert Timed(m, r, k);
        DrainsVisit(d, r.now, start, start, Target(r.now), k);
      }
      WheelDrained(m, e.residents, r, e.wheel, start);
    }
  }

  lemma {:induction false} NothingTimed(r: Retention)
    requires !r.enabled && r.wheel == [] && r.now <= SizeClasses.UINT32_MAX
    ensures WheelOk(map[], r)
  {
    forall k ensures Timed(map[], r, k) { }
  }

  // ------------------------------------------------------------ configuration

  function ConfiguredWheel(enabled: bool, budget: nat, classPct: nat, maxTtl: nat, now: nat): Retention {
    var on := enabled && maxTtl != 0;
    Retention(on, budget, if classPct > 100 then 100 else classPct, maxTtl, now, Target(now),
              if on then seq(maxTtl / TICK + 2, i => []) else [])
  }

  predicate NothingProtected(m: map<BlockKey, Meta>) {
    forall k :: k in m ==> m[k].until == 0
  }

  /** A newly configured wheel is in order exactly when nothing is protected yet and the tick
      of the next second is not the one that counts as drained. */
  lemma {:induction false} ConfiguredIsOrdered(m: map<BlockKey, Meta>, enabled: bool, budget: nat, classPct: nat,
                                               maxTtl: nat, now: nat)
    requires now <= SizeClasses.UINT32_MAX
    ensures var r := ConfiguredWheel(enabled, budget, classPct, maxTtl, now);
      WheelShape(r) && (WheelOk(m, r) <==> NothingProtected(m) && (r.enabled ==> now >= TICK - 1))
  {
    var r := ConfiguredWheel(enabled, budget, classPct, maxTtl, now);
    if NothingProtected(m) {
      forall k ensures Timed(m, r, k) { }
    } else {
      var k :| k in m && m[k].until != 0;
      assert !Timed(m, r, k);
    }
  }
}
