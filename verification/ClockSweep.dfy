/** The CLOCK sweep of one class: which resident it evicts. */
module ClockSweep {
  import opened Types
  import opened Lifecycle
  import opened SweepOrder
  import opened SlabPool

  /** Nobody holds it and no retention protects it. */
  predicate Free(m: Meta) {
    Evictable(ViewOf(m))
  }

  predicate Victimizable(r: map<BlockKey, Meta>, k: BlockKey) {
    k in r && Free(r[k])
  }

  predicate Unused(r: map<BlockKey, Meta>, k: BlockKey) {
    Victimizable(r, k) && !r[k].referenced
  }

  /** Whether `k` is the first of `s` that may be evicted. */
  predicate FirstFree(s: seq<BlockKey>, r: map<BlockKey, Meta>, i: nat) {
    && i < |s| && Victimizable(r, s[i])
    && forall j :: 0 <= j < i ==> !Victimizable(r, s[j])
  }

  predicate FirstUnused(s: seq<BlockKey>, r: map<BlockKey, Meta>, i: nat) {
    && i < |s| && Unused(r, s[i])
    && forall j :: 0 <= j < i ==> !Unused(r, s[j])
  }

  /** The second-chance rule: the first unused candidate in sweep order, or, when every
      candidate was used since the last sweep, the first candidate. */
  ghost predicate ClockChoice(s: seq<BlockKey>, r: map<BlockKey, Meta>, k: BlockKey) {
    || (exists i: nat :: FirstUnused(s, r, i) && s[i] == k)
    || (NoneUnused(s, r) && exists i: nat :: FirstFree(s, r, i) && s[i] == k)
  }

  ghost predicate NoCandidate(s: seq<BlockKey>, r: map<BlockKey, Meta>) {
    forall i :: 0 <= i < |s| ==> !Victimizable(r, s[i])
  }

  ghost predicate NoneUnused(s: seq<BlockKey>, r: map<BlockKey, Meta>) {
    forall i :: 0 <= i < |s| ==> !Unused(r, s[i])
  }

  /** Of what `t` has, exactly the candidates among the first `i` lost their reference bit. */
  ghost predicate BitsTaken(s: seq<BlockKey>, i: nat, r: map<BlockKey, Meta>, t: map<BlockKey, Meta>) {
    && i <= |s| && t.Keys <= r.Keys
    && forall k :: k in t ==> t[k] == if k in s[..i] && Free(r[k]) then r[k].(referenced := false) else r[k]
  }

  /** The second-chance choice is at index `i`; the bits taken are those before it, or all if
      every candidate was used. */
  ghost predicate ChosenAt(s: seq<BlockKey>, r: map<BlockKey, Meta>, t: map<BlockKey, Meta>, i: nat) {
    || (FirstUnused(s, r, i) && BitsTaken(s, i, r, t))
    || (NoneUnused(s, r) && FirstFree(s, r, i) && BitsTaken(s, |s|, r, t))
  }

  /** A sweep that stops at index `i`, with the hand behind it. */
  ghost predicate StopsAt(s: seq<BlockKey>, r: map<BlockKey, Meta>, order: seq<BlockKey>, t: map<BlockKey, Meta>,
                          i: nat) {
    i < |s| && order == s[i + 1..] + s[..i + 1] && t.Keys == r.Keys && ChosenAt(s, r, t, i)
  }

  /** The eviction at index `i`: the victim leaves order and residents. */
  ghost predicate TakesAt(s: seq<BlockKey>, r: map<BlockKey, Meta>, order: seq<BlockKey>, t: map<BlockKey, Meta>,
                          i: nat) {
    i < |s| && order == s[i + 1..] + s[..i] && s[i] in r && t.Keys == r.Keys - {s[i]} && ChosenAt(s, r, t, i)
  }

  lemma {:induction false} StopThenTake(s: seq<BlockKey>, r: map<BlockKey, Meta>, order: seq<BlockKey>,
                                        t: map<BlockKey, Meta>, i: nat)
    requires StopsAt(s, r, order, t, i) && Distinct(s)
    ensures s[i] in r && TakesAt(s, r, Without(order, s[i]), t - {s[i]}, i)
  {
    assert s[i + 1..] + s[..i + 1] == (s[i + 1..] + s[..i]) + [s[i]];
    assert s[i] !in s[i + 1..] + s[..i];
    WithoutConcat(s[i + 1..] + s[..i], [s[i]], s[i]);
    WithoutAbsent(s[i + 1..] + s[..i], s[i]);
    assert Without([s[i]], s[i]) == [];
    assert ChosenAt(s, r, t - {s[i]}, i);
  }

  /** A sweep that finds nothing turns the hand by two and takes no bit. */
  ghost predicate FindsNone(s: seq<BlockKey>, r: map<BlockKey, Meta>, order: seq<BlockKey>, t: map<BlockKey, Meta>) {
    NoCandidate(s, r) && t == r && order == if |s| > 2 then s[2..] + s[..2] else s
  }

  /** Two evictions. A candidate that the first one passed, and that was not used since, is not
      passed again, whatever was inserted meanwhile: the second one takes it, or one that lies
      before it in the order by then. */
  lemma {:induction false} NoSecondChance(s: seq<BlockKey>, r: map<BlockKey, Meta>, order: seq<BlockKey>,
                                          t: map<BlockKey, Meta>, i: nat, x: nat,
                                          s2: seq<BlockKey>, r2: map<BlockKey, Meta>, order2: seq<BlockKey>,
                                          t2: map<BlockKey, Meta>, i2: nat, x2: nat)
    requires TakesAt(s, r, order, t, i) && x < i && Victimizable(r, s[x]) && s[x] in t
    requires x2 < |s2| && s2[x2] == s[x] && s[x] in r2 && r2[s[x]] == t[s[x]]
    requires TakesAt(s2, r2, order2, t2, i2)
    ensures i2 <= x2 && FirstUnused(s2, r2, i2)
  {
    assert s[x] in s[..i];
    assert Unused(r2, s2[x2]);
  }

  lemma {:induction false} ChoiceIsCandidate(s: seq<BlockKey>, r: map<BlockKey, Meta>, k: BlockKey)
    requires ClockChoice(s, r, k)
    ensures !NoCandidate(s, r)
  {
    var i: nat :| i < |s| && s[i] == k && (FirstUnused(s, r, i) || FirstFree(s, r, i));
    assert Victimizable(r, s[i]);
  }

  // ------------------------------------------------------------ a sweep in progress

  /** Element `i` after `lap` full laps and `at` more steps: visited candidates lost their
      reference bit, and from the second lap on a visited element is no candidate. */
  predicate SweptAt(s: seq<BlockKey>, r: map<BlockKey, Meta>, t: map<BlockKey, Meta>, lap: nat, at: nat, i: nat) {
    i < |s| ==>
      var k := s[i];
      && k in r && k in t
      && t[k] == r[k].(referenced := t[k].referenced)
      && ((lap > 0 || i < at) && Free(r[k]) ==> r[k].referenced && !t[k].referenced)
      && (!(lap > 0 || i < at) || !Free(r[k]) ==> t[k] == r[k])
      && (lap > 1 || (lap > 0 && i < at) ==> !Free(r[k]))
  }

  ghost predicate SweptSoFar(s: seq<BlockKey>, r: map<BlockKey, Meta>, t: map<BlockKey, Meta>, lap: nat, at: nat) {
    && (forall i :: SweptAt(s, r, t, lap, at, i))
    && t.Keys == r.Keys
    && (forall k :: k in r && k !in s ==> t[k] == r[k])
  }

  function NextLap(s: seq<BlockKey>, lap: nat, at: nat): nat {
    if at + 1 == |s| then lap + 1 else lap
  }

  function NextAt(s: seq<BlockKey>, at: nat): nat {
    if at + 1 == |s| then 0 else at + 1
  }

  lemma {:induction false} SweepStarts(s: seq<BlockKey>, r: map<BlockKey, Meta>)
    requires forall k :: k in s ==> k in r
    ensures SweptSoFar(s, r, r, 0, 0)
  {
    forall i: nat ensures SweptAt(s, r, r, 0, 0, i) { }
  }

  /** Passing an element that is held or protected, or taking its reference bit. */
  lemma {:induction false} SweepPasses(s: seq<BlockKey>, r: map<BlockKey, Meta>, t: map<BlockKey, Meta>, lap: nat,
                                       at: nat, u: map<BlockKey, Meta>)
    requires SweptSoFar(s, r, t, lap, at) && Distinct(s) && at < |s| && s[at] in t
    requires u == if Free(t[s[at]]) then t[s[at] := t[s[at]].(referenced := false)] else t
    requires Free(t[s[at]]) ==> t[s[at]].referenced
    ensures SweptSoFar(s, r, u, NextLap(s, lap, at), NextAt(s, at))
  {
    var lap1, at1 := NextLap(s, lap, at), NextAt(s, at);
    assert SweptAt(s, r, t, lap, at, at);
    forall i: nat ensures SweptAt(s, r, u, lap1, at1, i) { assert SweptAt(s, r, t, lap, at, i); }
    assert u.Keys == t.Keys;
  }

  lemma {:induction false} SweptBits(s: seq<BlockKey>, r: map<BlockKey, Meta>, t: map<BlockKey, Meta>, lap: nat,
                                     at: nat)
    requires SweptSoFar(s, r, t, lap, at) && at <= |s|
    ensures t.Keys == r.Keys && BitsTaken(s, if lap > 0 then |s| else at, r, t)
  {
    var i := if lap > 0 then |s| else at;
    forall k | k in t ensures t[k] == if k in s[..i] && Free(r[k]) then r[k].(referenced := false) else r[k] {
      if k in s {
        var j :| 0 <= j < |s| && s[j] == k;
        assert SweptAt(s, r, t, lap, at, j);
        if j < i { assert s[..i][j] == k; }
        if k in s[..i] {
          var x :| 0 <= x < i && s[x] == k;
          assert SweptAt(s, r, t, lap, at, x);
        }
      }
    }
  }

  /** The element the sweep stops at is the second-chance choice. */
  lemma {:induction false} SweepChooses(s: seq<BlockKey>, r: map<BlockKey, Meta>, t: map<BlockKey, Meta>, lap: nat,
                                        at: nat)
    requires SweptSoFar(s, r, t, lap, at) && at < |s| && s[at] in t && Free(t[s[at]]) && !t[s[at]].referenced
    ensures ClockChoice(s, r, s[at]) && StopsAt(s, r, s[at + 1..] + s[..at + 1], t, at)
  {
    assert SweptAt(s, r, t, lap, at, at);
    SweptBits(s, r, t, lap, at);
    if lap == 0 {
      forall j | 0 <= j < at ensures !Unused(r, s[j]) { assert SweptAt(s, r, t, lap, at, j); }
      assert FirstUnused(s, r, at);
    } else {
      forall j | 0 <= j < |s| ensures !Unused(r, s[j]) { assert SweptAt(s, r, t, lap, at, j); }
      forall j | 0 <= j < at ensures !Victimizable(r, s[j]) { assert SweptAt(s, r, t, lap, at, j); }
      assert FirstFree(s, r, at);
    }
  }

  lemma {:induction false} SweepExhausted(s: seq<BlockKey>, r: map<BlockKey, Meta>, t: map<BlockKey, Meta>, lap: nat,
                                          at: nat)
    requires SweptSoFar(s, r, t, lap, at) && lap > 1
    ensures NoCandidate(s, r) && t == r
  {
    forall i | 0 <= i < |s| ensures !Victimizable(r, s[i]) { assert SweptAt(s, r, t, lap, at, i); }
    forall k | k in r ensures t[k] == r[k] {
      if k in s {
        var i :| 0 <= i < |s| && s[i] == k;
        assert SweptAt(s, r, t, lap, at, i);
      }
    }
  }

  lemma {:induction false} RotatedFacts<T>(s: seq<T>)
    requires Distinct(s)
    ensures Distinct(Rotated(s)) && |Rotated(s)| == |s| && forall x :: x in Rotated(s) <==> x in s
  {
    if s != [] { assert s == [s[0]] + s[1..]; }
  }

  lemma {:induction false} RotateOnce<T>(s: seq<T>, at: nat)
    requires at < |s|
    ensures var r := s[at..] + s[..at]; var n := if at + 1 == |s| then 0 else at + 1;
      r[0] == s[at] && Rotated(r) == s[n..] + s[..n]
  {
    var r := s[at..] + s[..at];
    assert r[1..] == s[at + 1..] + s[..at];
    assert s[..at + 1] == s[..at] + [s[at]];
    if at + 1 == |s| { assert s[..at + 1] == s; }
  }

  lemma {:induction false} Turned<T>(s: seq<T>, at: nat)
    requires at < |s|
    ensures var n := if at + 1 == |s| then 0 else at + 1; s[n..] + s[..n] == s[at + 1..] + s[..at + 1]
  {
    if at + 1 == |s| { assert s[..|s|] == s; }
  }

  lemma {:induction false} TurnedFacts<T>(s: seq<T>, at: nat)
    requires at <= |s| && Distinct(s)
    ensures var r := s[at..] + s[..at]; Distinct(r) && |r| == |s| && forall x :: x in r <==> x in s
  {
    assert s == s[..at] + s[at..];
  }

  /** The sweep loop: the hand passes held and protected elements, takes the reference bit of
      used ones, and stops at the first unused candidate. Two laps always decide; `limit` is
      the bound of the original loop. */
  method SweepClass(s: seq<BlockKey>, r: map<BlockKey, Meta>)
    returns (order: seq<BlockKey>, t: map<BlockKey, Meta>, victim: Option<BlockKey>, ghost stop: nat)
    requires Distinct(s) && forall k :: k in s ==> k in r
    ensures victim.None? ==> FindsNone(s, r, order, t)
    ensures victim.Some? ==> StopsAt(s, r, order, t, stop) && s[stop] == victim.value
    ensures Distinct(order) && |order| == |s| && forall x :: x in order <==> x in s
    ensures t.Keys == r.Keys && forall k :: k in r ==> t[k] == r[k].(referenced := t[k].referenced)
    ensures victim.None? ==> NoCandidate(s, r)
    ensures victim.Some? ==> victim.value in s && Victimizable(r, victim.value) && ClockChoice(s, r, victim.value)
  {
    order, t, victim, stop := s, r, None, 0;
    if s == [] { return; }
    SweepStarts(s, r);
    ghost var lap: nat, at: nat := 0, 0;
    assert s[0..] + s[..0] == s;
    var limit := 2 * |s| + 2;
    var steps := 0;
    while steps < limit
      invariant at < |s| && order == s[at..] + s[..at] && SweptSoFar(s, r, t, lap, at)
      invariant (lap == 0 ==> steps == at) && (lap == 1 ==> steps == |s| + at) && (lap == 2 ==> steps == 2 * |s| + at)
      invariant (lap == 3 ==> steps == 3 * |s| + at) && (lap > 3 ==> |s| == 1) && steps <= limit
      decreases limit - steps
    {
      steps := steps + 1;
      RotateOnce(s, at);
      assert SweptAt(s, r, t, lap, at, at);
      var k := order[0];
      var m := t[k];
      order := order[1..] + [k];
      if m.refs == 0 && m.until == 0 && !m.referenced {
        SweepChooses(s, r, t, lap, at);
        BitsOnly(s, r, t, lap, at);
        TurnedFacts(s, NextAt(s, at));
        Turned(s, at);
        return order, t, Some(k), at;
      }
      ghost var u := t;
      if m.refs == 0 && m.until == 0 {
        t := t[k := m.(referenced := false)];
      }
      SweepPasses(s, r, u, lap, at, t);
      lap, at := NextLap(s, lap, at), NextAt(s, at);
    }
    SweepExhausted(s, r, t, lap, at);
    BitsOnly(s, r, t, lap, at);
    TurnedFacts(s, at);
  }

  lemma {:induction false} BitsOnly(s: seq<BlockKey>, r: map<BlockKey, Meta>, t: map<BlockKey, Meta>, lap: nat, at: nat)
    requires SweptSoFar(s, r, t, lap, at)
    ensures forall k :: k in r ==> k in t && t[k] == r[k].(referenced := t[k].referenced)
  {
    forall k | k in r ensures t[k] == r[k].(referenced := t[k].referenced) {
      if k in s {
        var i :| 0 <= i < |s| && s[i] == k;
        assert SweptAt(s, r, t, lap, at, i);
      }
    }
  }
}
