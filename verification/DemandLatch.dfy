/** The demand latch of the background reclaimer: pressure arms it, recent new bytes renew
    it, and a long quiet spell expires it. */
module DemandLatch {

  const QUIET_LIMIT: nat := 128

  datatype Latch = Latch(active: bool, pressureSeen: bool, quiet: nat, current: nat, previous: nat)

  const IDLE := Latch(false, false, 0, 0, 0)

  /** One reclaimer tick: what it observes at its start and after its work. */
  datatype Tick = Tick(used: nat, high: nat, low: nat, admitted: nat, usedAfter: nat, lowAfter: nat)

  /** The latch of one store, updated at the start and at the end of every tick. */
  class NewPutDemandLatch {
    var active: bool
    var pressureSeen: bool
    var quietTicks: nat
    var currentBytes: nat
    var previousBytes: nat

    function State(): Latch reads this {
      Latch(active, pressureSeen, quietTicks, currentBytes, previousBytes)
    }

    constructor ()
      ensures State() == IDLE
    {
      active, pressureSeen, quietTicks, currentBytes, previousBytes := false, false, 0, 0, 0;
    }

    method BeginTick(used: nat, high: nat, low: nat, admitted: nat)
      modifies this
      ensures State() == Begin(old(State()), used, high, low, admitted)
    {
      previousBytes := currentBytes;
      currentBytes := admitted;
      if used == 0 {
        pressureSeen := false;
        quietTicks := 0;
      }
      if used > high {
        pressureSeen := true;
        active := true;
        quietTicks := 0;
      } else if admitted != 0 {
        quietTicks := 0;
        if pressureSeen && used > low { active := true; }
      } else if pressureSeen {
        if quietTicks < QUIET_LIMIT { quietTicks := quietTicks + 1; }
      } else {
        quietTicks := 0;
      }
    }

    method EndTick(used: nat, low: nat)
      modifies this
      ensures State() == End(old(State()), used, low)
    {
      if used <= low && currentBytes == 0 && previousBytes == 0 { active := false; }
      if pressureSeen && !active && quietTicks == QUIET_LIMIT {
        pressureSeen := false;
        quietTicks := 0;
      }
    }
  }

  function Begin(l: Latch, used: nat, high: nat, low: nat, admitted: nat): Latch {
    var seen := l.pressureSeen && used != 0;
    Latch(l.active || used > high || (admitted != 0 && seen && used > low),
          seen || used > high,
          if used > high || admitted != 0 || !seen then 0 else if l.quiet < QUIET_LIMIT then l.quiet + 1 else l.quiet,
          admitted, l.current)
  }

  function End(l: Latch, used: nat, low: nat): Latch {
    var active := l.active && !(used <= low && l.current == 0 && l.previous == 0);
    var expired := l.pressureSeen && !active && l.quiet == QUIET_LIMIT;
    l.(active := active, pressureSeen := l.pressureSeen && !expired, quiet := if expired then 0 else l.quiet)
  }

  function Step(l: Latch, t: Tick): Latch {
    End(Begin(l, t.used, t.high, t.low, t.admitted), t.usedAfter, t.lowAfter)
  }

  function Run(l: Latch, ticks: seq<Tick>): Latch {
    if ticks == [] then l else Step(Run(l, ticks[..|ticks| - 1]), ticks[|ticks| - 1])
  }

  /** Some tick found more bytes in use than the high watermark. */
  predicate Pressured(ticks: seq<Tick>) {
    exists i :: 0 <= i < |ticks| && ticks[i].used > ticks[i].high
  }

  predicate Quiet(t: Tick) {
    t.admitted == 0 && t.used <= t.high
  }

  /** Quiet ticks are counted up to the limit only, and the latch never acts or arms without
      pressure having been seen in some tick. */
  lemma {:induction false} NeverWithoutPressure(ticks: seq<Tick>)
    ensures Run(IDLE, ticks).quiet <= QUIET_LIMIT
    ensures Run(IDLE, ticks).active || Run(IDLE, ticks).pressureSeen ==> Pressured(ticks)
  {
    if ticks != [] {
      var n := |ticks| - 1;
      var before := ticks[..n];
      NeverWithoutPressure(before);
      if Pressured(before) {
        var i :| 0 <= i < n && before[i].used > before[i].high;
        assert ticks[i].used > ticks[i].high;
      }
      if ticks[n].used > ticks[n].high { assert Pressured(ticks); }
    }
  }

  /** Tick `j` arms the latch: it found more than the high mark, or new bytes above the low mark
      while pressure was remembered. */
  predicate Arms(ticks: seq<Tick>, j: nat)
    requires j < |ticks|
  {
    var t := ticks[j];
    t.used > t.high || (t.admitted != 0 && t.used > t.low && Run(IDLE, ticks[..j]).pressureSeen)
  }

  /** Tick `i` ends at or below the low mark, after two intervals without new bytes. */
  predicate Disarms(ticks: seq<Tick>, i: nat)
    requires i < |ticks|
  {
    ticks[i].usedAfter <= ticks[i].lowAfter && ticks[i].admitted == 0 && (i == 0 || ticks[i - 1].admitted == 0)
  }

  predicate ArmedSince(ticks: seq<Tick>, j: nat)
    requires j < |ticks|
  {
    Arms(ticks, j) && forall i :: j <= i < |ticks| ==> !Disarms(ticks, i)
  }

  lemma {:induction false} LastAdmitted(ticks: seq<Tick>)
    ensures Run(IDLE, ticks).current == if ticks == [] then 0 else ticks[|ticks| - 1].admitted
  {
  }

  lemma {:induction false} ArmedNext(ticks: seq<Tick>, j: nat)
    requires j < |ticks| - 1
    ensures ArmedSince(ticks, j) <==> ArmedSince(ticks[..|ticks| - 1], j) && !Disarms(ticks, |ticks| - 1)
  {
    var n := |ticks| - 1;
    var before := ticks[..n];
    assert before[..j] == ticks[..j];
    forall i | 0 <= i < n ensures Disarms(before, i) == Disarms(ticks, i) { }
    if ArmedSince(before, j) && !Disarms(ticks, n) {
      forall i | j <= i < |ticks| ensures !Disarms(ticks, i) { if i < n { assert !Disarms(before, i); } }
    }
    if ArmedSince(ticks, j) {
      forall i | j <= i < n ensures !Disarms(before, i) { assert !Disarms(ticks, i); }
    }
  }

  /** When the latch is active: exactly if some tick armed it and none has disarmed it since. */
  lemma {:induction false} ActiveExactly(ticks: seq<Tick>)
    ensures Run(IDLE, ticks).active <==> exists j :: 0 <= j < |ticks| && ArmedSince(ticks, j)
  {
    if ticks != [] {
      var n := |ticks| - 1;
      var before := ticks[..n];
      ActiveExactly(before);
      LastAdmitted(before);
      forall j: nat | j < n ensures ArmedSince(ticks, j) <==> ArmedSince(before, j) && !Disarms(ticks, n) {
        ArmedNext(ticks, j);
      }
      assert ArmedSince(ticks, n) <==> Arms(ticks, n) && !Disarms(ticks, n);
    }
  }

  /** From an inactive latch, quiet ticks keep it inactive and wear the memory of pressure off
      one by one. */
  lemma {:induction false} QuietWearsOff(l: Latch, ticks: seq<Tick>)
    requires !l.active && l.quiet <= QUIET_LIMIT && |ticks| < QUIET_LIMIT
    requires forall i :: 0 <= i < |ticks| ==> Quiet(ticks[i])
    ensures var m := Run(l, ticks); !m.active && (m.pressureSeen ==> |ticks| <= m.quiet <= QUIET_LIMIT)
  {
    if ticks != [] {
      QuietWearsOff(l, ticks[..|ticks| - 1]);
    }
  }

  /** After 128 quiet ticks from any inactive point the pressure is forgotten. */
  lemma {:induction false} QuietForgetsPressure(l: Latch, ticks: seq<Tick>)
    requires !l.active && l.quiet <= QUIET_LIMIT && |ticks| == QUIET_LIMIT
    requires forall i :: 0 <= i < |ticks| ==> Quiet(ticks[i])
    ensures !Run(l, ticks).pressureSeen && !Run(l, ticks).active
  {
    QuietWearsOff(l, ticks[..QUIET_LIMIT - 1]);
  }

  /** And not earlier: while data remains, fewer quiet ticks after a new start of the count
      leave the latch ready to act. */
  lemma {:induction false} FewerDoNot(l: Latch, ticks: seq<Tick>)
    requires !l.active && l.pressureSeen && l.quiet + |ticks| < QUIET_LIMIT
    requires forall i :: 0 <= i < |ticks| ==> Quiet(ticks[i]) && ticks[i].used > 0
    ensures Run(l, ticks).pressureSeen && !Run(l, ticks).active && Run(l, ticks).quiet == l.quiet + |ticks|
  {
    if ticks != [] {
      FewerDoNot(l, ticks[..|ticks| - 1]);
    }
  }

  predicate EmptiedAt(ticks: seq<Tick>, i: nat) {
    i < |ticks| && ticks[i].used == 0 && forall j :: i < j < |ticks| ==> ticks[j].used <= ticks[j].high
  }

  /** The store was found empty, and not above the high watermark since. */
  ghost predicate Emptied(ticks: seq<Tick>) {
    exists i :: EmptiedAt(ticks, i)
  }

  lemma {:induction false} EmptiedNext(ticks: seq<Tick>)
    requires ticks != []
    ensures var n := |ticks| - 1;
      Emptied(ticks) <==> ticks[n].used == 0 || (Emptied(ticks[..n]) && ticks[n].used <= ticks[n].high)
  {
    var n := |ticks| - 1;
    var before := ticks[..n];
    if i: nat :| EmptiedAt(ticks, i) && i < n { assert EmptiedAt(before, i); }
    if ticks[n].used == 0 { assert EmptiedAt(ticks, n); }
    if i: nat :| EmptiedAt(before, i) && ticks[n].used <= ticks[n].high { assert EmptiedAt(ticks, i); }
  }

  /** An active latch remembers pressure if and only if the store was not emptied since; and no
      latch remembers pressure from before that. */
  lemma {:induction false} RemembersUnlessEmptied(ticks: seq<Tick>)
    ensures Run(IDLE, ticks).active ==> (Run(IDLE, ticks).pressureSeen <==> !Emptied(ticks))
    ensures Run(IDLE, ticks).pressureSeen ==> !Emptied(ticks)
  {
    if ticks != [] {
      RemembersUnlessEmptied(ticks[..|ticks| - 1]);
      EmptiedNext(ticks);
    }
  }

  /** An active latch is not proof of remembered pressure: emptying the store clears the memory
      while the latch stays active until two intervals brought no new bytes. */
  lemma {:induction false} ActiveWithoutMemory()
    ensures var l := Run(IDLE, [Tick(9, 5, 1, 1, 9, 1), Tick(0, 5, 1, 0, 0, 1)]); l.active && !l.pressureSeen
  {
    var a, b := Tick(9, 5, 1, 1, 9, 1), Tick(0, 5, 1, 0, 0, 1);
    assert [a, b][..1] == [a] && [a][..0] == [];
    assert Run(IDLE, [a]) == Step(IDLE, a);
  }
}
