/** Retention over whole runs: when a protection can outlive its deadline by a whole tick. */
module RetentionRun {
  import opened Types
  import opened SlabPool
  import opened Wheel
  import opened RestoreBulk
  import SizeClasses

  /** What happens to deadlines: the clock moves on, a resident comes, changes or goes, a restore
      brings one with its persisted deadline, a grant moves a deadline, and an expiry drains the
      wheel. A grant asks for no budget here; a restore asks for none in the source either. */
  datatype Event =
    | Clock(now: nat)
    | Set(key: BlockKey, meta: Meta)
    | Gone(key: BlockKey)
    | Restore(cls: nat, entry: RestoreEntry)
    | Grant(key: BlockKey, ttl: nat, refresh: bool)
    | Expire

  datatype State = State(residents: map<BlockKey, Meta>, retention: Retention)

  function Life(s: State, k: BlockKey, ttl: nat, refresh: bool): nat
    requires k in s.residents
  {
    Lifetime(s.retention.maxTtl, s.residents[k].ttl, ttl, refresh)
  }

  predicate Can(s: State, e: Event) {
    match e
    case Clock(now) => s.retention.now <= now <= SizeClasses.UINT32_MAX
    case Set(k, m) => m.until == if k in s.residents then s.residents[k].until else 0
    case Gone(k) => true
    case Restore(c, en) => en.key !in s.residents
    case Grant(k, ttl, refresh) => s.retention.enabled && k in s.residents && Life(s, k, ttl, refresh) > 0
    case Expire => true
  }

  /** A moved deadline gets a wheel entry. */
  function Granted(s: State, k: BlockKey, life: nat): State
    requires k in s.residents
  {
    var m := s.residents[k];
    var until := Deadline(s.retention.now, life, m.until);
    State(s.residents[k := m.(until := until, ttl := life)],
          if until != m.until then PushWheel(s.retention, k, until) else s.retention)
  }

  /** A deadline still ahead comes back, cut to the longest lifetime, with its wheel entry. */
  function Restored(s: State, c: nat, en: RestoreEntry): State {
    var m := RestoredMeta(s.retention, c, en);
    State(s.residents[en.key := m],
          if m.until != 0 then PushWheel(s.retention, en.key, m.until) else s.retention)
  }

  function After(s: State, e: Event): State
    requires Can(s, e)
  {
    match e
    case Clock(now) => s.(retention := s.retention.(now := now))
    case Set(k, m) => s.(residents := s.residents[k := m])
    case Gone(k) => s.(residents := s.residents - {k})
    case Restore(c, en) => Restored(s, c, en)
    case Grant(k, ttl, refresh) => Granted(s, k, Life(s, k, ttl, refresh))
    case Expire => var (m, r) := AfterExpire(s.residents, s.retention); State(m, r)
  }

  predicate Run(ss: seq<State>, es: seq<Event>) {
    && |ss| == |es| + 1
    && forall i :: 0 <= i < |es| ==> Can(ss[i], es[i]) && ss[i + 1] == After(ss[i], es[i])
  }

  /** A protection is past its deadline by a whole tick. */
  predicate Overdue(s: State, k: BlockKey) {
    k in s.residents && s.residents[k].until != 0 && s.residents[k].until + TICK <= s.retention.now
  }

  /** A run from `s` that ends with an expiry after which `k` is overdue. */
  predicate LeavesOverdue(s: State, ss: seq<State>, es: seq<Event>, k: BlockKey) {
    && Run(ss, es) && ss[0] == s && es != [] && es[|es| - 1] == Expire
    && Overdue(ss[|es|], k)
  }

  // ------------------------------------------------------------ an ordered wheel

  lemma {:induction false} GrantKeeps(s: State, k: BlockKey, life: nat)
    requires WheelOk(s.residents, s.retention) && s.retention.enabled && k in s.residents && life > 0
    ensures var u := Granted(s, k, life); WheelOk(u.residents, u.retention)
  {
    var m, r := s.residents[k], s.retention;
    WheelMoved(true, s.residents, r, k, m.(until := Deadline(r.now, life, m.until), ttl := life));
  }

  lemma {:induction false} EventKeeps(s: State, e: Event)
    requires WheelOk(s.residents, s.retention) && Can(s, e)
    ensures var u := After(s, e); WheelOk(u.residents, u.retention)
  {
    match e
    case Clock(now) => WheelLater(s.residents, s.retention, now);
    case Set(k, m) => WheelKept(true, s.residents, s.residents[k := m], s.retention);
    case Gone(k) => WheelKept(true, s.residents, s.residents - {k}, s.retention);
    case Restore(c, en) => RestoredTimed(true, s.residents, s.retention, c, en);
    case Grant(k, ttl, refresh) => GrantKeeps(s, k, Life(s, k, ttl, refresh));
    case Expire => ExpireKeeps(s.residents, s.retention);
  }

  lemma {:induction false} RunKeeps(ss: seq<State>, es: seq<Event>, n: nat)
    requires Run(ss, es) && n < |ss| && WheelOk(ss[0].residents, ss[0].retention)
    ensures WheelOk(ss[n].residents, ss[n].retention)
  {
    if n > 0 {
      RunKeeps(ss, es, n - 1);
      EventKeeps(ss[n - 1], es[n - 1]);
    }
  }

  // ------------------------------------------------------------ a grant lasts

  /** `k` is protected at least until `until`. */
  predicate Protected(s: State, k: BlockKey, until: nat) {
    k in s.residents && s.residents[k].until >= until
  }

  lemma {:induction false} EventLasts(s: State, e: Event, k: BlockKey, until: nat)
    requires Can(s, e) && Protected(s, k, until) && s.retention.now < until && e != Gone(k)
    ensures Protected(After(s, e), k, until)
  {
    if e == Expire {
      ExpireReleases(s.residents, s.retention);
      assert Released1(s.residents, After(s, Expire).residents, s.retention.now, k);
    }
  }

  lemma {:induction false} ExpireReleases(m: map<BlockKey, Meta>, r: Retention)
    ensures Releases(m, AfterExpire(m, r).0, r.now)
  {
    if r.wheel == [] || Target(r.now) <= r.tick {
      forall k ensures Released1(m, m, r.now, k) { }
    } else {
      DrainsReleases(Drain(m, r.wheel), r.now, StartTick(r), Target(r.now));
    }
  }

  lemma {:induction false} ClockBefore(ss: seq<State>, es: seq<Event>, i: nat, n: nat)
    requires Run(ss, es) && i <= n < |ss|
    ensures ss[i].retention.now <= ss[n].retention.now
  {
    if i < n { ClockBefore(ss, es, i, n - 1); }
  }

  lemma {:induction false} StillProtected(ss: seq<State>, es: seq<Event>, i: nat, n: nat, k: BlockKey, until: nat)
    requires Run(ss, es) && i <= n < |ss| && Protected(ss[i], k, until)
    requires ss[n].retention.now < until && forall j :: i <= j < n ==> es[j] != Gone(k)
    ensures Protected(ss[n], k, until)
  {
    if i < n {
      ClockBefore(ss, es, n - 1, n);
      StillProtected(ss, es, i, n - 1, k, until);
      EventLasts(ss[n - 1], es[n - 1], k, until);
    }
  }

  /** A key set with a lifetime stays protected, through every expiry and whatever else is
      granted, until that lifetime is over on the clock, or until the key is gone. */
  lemma {:induction false} SetLasts(ss: seq<State>, es: seq<Event>, i: nat, n: nat, k: BlockKey, ttl: nat)
    requires Run(ss, es) && i < n < |ss| && es[i] == Grant(k, ttl, false)
    requires forall j :: i < j < n ==> es[j] != Gone(k)
    requires ss[n].retention.now < ss[i].retention.now + Lower(ttl, ss[i].retention.maxTtl)
      && ss[n].retention.now < SizeClasses.UINT32_MAX
    ensures k in ss[n].residents
      && ss[n].residents[k].until >= Lower(ss[i].retention.now + Lower(ttl, ss[i].retention.maxTtl),
                                           SizeClasses.UINT32_MAX)
  {
    var until := Lower(ss[i].retention.now + Lower(ttl, ss[i].retention.maxTtl), SizeClasses.UINT32_MAX);
    assert Protected(ss[i + 1], k, until);
    StillProtected(ss, es, i + 1, n, k, until);
  }

  // ------------------------------------------------------------ a wheel out of order

  lemma {:induction false} Extend(ss: seq<State>, es: seq<Event>, e: Event)
    requires Run(ss, es) && Can(ss[|es|], e)
    ensures Run(ss + [After(ss[|es|], e)], es + [e])
  {
    var t, p := ss + [After(ss[|es|], e)], es + [e];
    forall i | 0 <= i < |p| ensures Can(t[i], p[i]) && t[i + 1] == After(t[i], p[i]) {
      if i < |es| { assert t[i] == ss[i] && t[i + 1] == ss[i + 1] && p[i] == es[i]; }
    }
  }

  /** An expiry at second 25 drains one tick, and no entry of the first one is in its bucket. */
  lemma {:induction false} FirstTickStays(s: State, k: BlockKey)
    requires var r := s.retention; r.now == 25 && r.tick == 0 && |r.wheel| > 1 && r.wheel[1] == [] && k in s.residents
    ensures k in After(s, Expire).residents && After(s, Expire).residents[k] == s.residents[k]
  {
    var wheel := s.retention.wheel;
    assert 1 % |wheel| == 1;
    var d := DrainOne(Drain(s.residents, wheel), 25, 0);
    assert d.residents == s.residents;
    assert Drains(d, 25, 1, 1) == d;
    assert Drains(Drain(s.residents, wheel), 25, 0, 1) == d;
  }

  /** A protection restored in the first tick, on a wheel configured before its ninth second,
      is still there at second 25, whatever the budget. */
  lemma {:induction false} EarlyWheelMisses(m: map<BlockKey, Meta>, budget: nat, classPct: nat, maxTtl: nat, start: nat,
                                            c: nat, en: RestoreEntry)
    returns (ss: seq<State>, es: seq<Event>)
    requires maxTtl > 0 && start < TICK - 1 && en.until == start + 1 && en.ttl > 0
    ensures LeavesOverdue(State(m, ConfiguredWheel(true, budget, classPct, maxTtl, start)), ss, es, en.key)
    ensures es == [Gone(en.key), Restore(c, en), Clock(25), Expire]
  {
    var r := ConfiguredWheel(true, budget, classPct, maxTtl, start);
    var s0 := State(m, r);
    var s1 := After(s0, Gone(en.key));
    var s2 := After(s1, Restore(c, en));
    var s3 := After(s2, Clock(25));
    var s4 := After(s3, Expire);
    ss, es := [s0], [];
    Extend(ss, es, Gone(en.key));
    ss, es := ss + [s1], es + [Gone(en.key)];
    Extend(ss, es, Restore(c, en));
    ss, es := ss + [s2], es + [Restore(c, en)];
    Extend(ss, es, Clock(25));
    ss, es := ss + [s3], es + [Clock(25)];
    Extend(ss, es, Expire);
    ss, es := ss + [s4], es + [Expire];
    var wheel := s3.retention.wheel;
    assert s3.residents[en.key].until == start + 1 && (start + 1) / TICK == 0 && 0 % |r.wheel| == 0;
    assert wheel[1] == r.wheel[1];
    FirstTickStays(s3, en.key);
  }

  /** The exact condition. With nothing protected before, a configured wheel can leave a
      protection overdue by a whole tick after an expiry if and only if it is enabled and was
      configured before the ninth second of its clock; the budget and the cap of a class do not
      matter. The run restores any entry `en` the allocator takes, with a deadline of its own:
      whether an entry fits does not depend on its deadline. */
  lemma {:induction false} OverdueOnlyWhenEarly(m: map<BlockKey, Meta>, enabled: bool, budget: nat, classPct: nat,
                                                maxTtl: nat, start: nat, c: nat, en: RestoreEntry)
    requires start <= SizeClasses.UINT32_MAX && NothingProtected(m)
    ensures var s := State(m, ConfiguredWheel(enabled, budget, classPct, maxTtl, start));
      (exists ss, es, j :: LeavesOverdue(s, ss, es, j)) <==> s.retention.enabled && start < TICK - 1
  {
    var s := State(m, ConfiguredWheel(enabled, budget, classPct, maxTtl, start));
    if s.retention.enabled && start < TICK - 1 {
      var ss, es := EarlyWheelMisses(m, budget, classPct, maxTtl, start, c, en.(until := start + 1, ttl := 1));
      assert LeavesOverdue(s, ss, es, en.key);
    } else if ss: seq<State>, es: seq<Event>, j :| LeavesOverdue(s, ss, es, j) {
      ConfiguredIsOrdered(m, enabled, budget, classPct, maxTtl, start);
      RunKeeps(ss, es, |es| - 1);
      ExpireKeeps(ss[|es| - 1].residents, ss[|es| - 1].retention);
    }
  }

  /** A protection that is there when the wheel is configured is lost to it: once the clock has
      passed its deadline by ten seconds an expiry still leaves it. */
  lemma {:induction false} ReconfiguringLoses(m: map<BlockKey, Meta>, budget: nat, classPct: nat, maxTtl: nat,
                                              start: nat, k: BlockKey)
    returns (ss: seq<State>, es: seq<Event>)
    requires maxTtl > 0 && k in m && m[k].until != 0
    requires start <= SizeClasses.UINT32_MAX && m[k].until + TICK <= SizeClasses.UINT32_MAX
    ensures LeavesOverdue(State(m, ConfiguredWheel(true, budget, classPct, maxTtl, start)), ss, es, k)
  {
    var r := ConfiguredWheel(true, budget, classPct, maxTtl, start);
    var s0 := State(m, r);
    var now := if start < m[k].until + TICK then m[k].until + TICK else start;
    var s1 := After(s0, Clock(now));
    var s2 := After(s1, Expire);
    ss, es := [s0], [];
    Extend(ss, es, Clock(now));
    ss, es := ss + [s1], es + [Clock(now)];
    Extend(ss, es, Expire);
    ss, es := ss + [s2], es + [Expire];
    if Target(now) > r.tick {
      NeverVisited(Drain(m, r.wheel), now, StartTick(s1.retention), Target(now), k);
    }
  }

  lemma {:induction false} NeverVisited(d: Drain, now: nat, tick: nat, target: nat, k: BlockKey)
    requires d.wheel != [] && k in d.residents && forall b :: 0 <= b < |d.wheel| ==> d.wheel[b] == []
    ensures var e := Drains(d, now, tick, target); k in e.residents && e.residents[k] == d.residents[k]
    decreases target - tick
  {
    if tick < target {
      var b := (tick + 1) % |d.wheel|;
      assert d.wheel[b] == [] && Kept(d.wheel[b], now) == [];
      NeverVisited(DrainOne(d, now, tick), now, tick + 1, target, k);
    }
  }
}
