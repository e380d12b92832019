/** The global sweep: which residents it evicts, whatever is held or protected on its way. */
module ColdSweep {
  import opened Types
  import opened Lifecycle
  import opened SweepOrder
  import opened SlabPool
  import opened ClockSweep

  /** The elements of `s` that may be evicted, in order. */
  function Takes(s: seq<BlockKey>, m: map<BlockKey, Meta>): seq<BlockKey> {
    if s == [] then []
    else
      var n := |s| - 1;
      Takes(s[..n], m) + (if Victimizable(m, s[n]) then [s[n]] else [])
  }

  /** The elements of `s` that are held or protected, in order. */
  function Skips(s: seq<BlockKey>, m: map<BlockKey, Meta>): seq<BlockKey> {
    if s == [] then []
    else
      var n := |s| - 1;
      Skips(s[..n], m) + (if Victimizable(m, s[n]) then [] else [s[n]])
  }

  /** After `steps` steps over the order `s`: in the first lap what may be evicted is gone and
      what is held or protected is behind; later only the latter is left. */
  ghost predicate Swept(s: seq<BlockKey>, m: map<BlockKey, Meta>, order: seq<BlockKey>, evicted: seq<BlockKey>,
                        steps: nat) {
    if steps <= |s|
    then evicted == Takes(s[..steps], m) && order == s[steps..] + Skips(s[..steps], m)
    else evicted == Takes(s, m) && forall k :: k in order ==> k in s && !Victimizable(m, k)
  }

  lemma {:induction false} Split(s: seq<BlockKey>, m: map<BlockKey, Meta>)
    ensures |Takes(s, m)| + |Skips(s, m)| == |s|
    ensures forall k :: k in Skips(s, m) ==> k in s && !Victimizable(m, k)
    ensures forall k :: k in Takes(s, m) ==> k in s && Victimizable(m, k)
  {
    if s != [] { Split(s[..|s| - 1], m); }
  }

  lemma {:induction false} Prefix(s: seq<BlockKey>, m: map<BlockKey, Meta>, n: nat)
    requires n <= |s|
    ensures Takes(s[..n], m) <= Takes(s, m) && Skips(s[..n], m) <= Skips(s, m)
  {
    if n == |s| {
      assert s[..n] == s;
    } else {
      assert s[..|s| - 1][..n] == s[..n];
      Prefix(s[..|s| - 1], m, n);
    }
  }

  lemma {:induction false} SweptStarts(s: seq<BlockKey>, m: map<BlockKey, Meta>)
    ensures Swept(s, m, s, [], 0)
  {
  }

  lemma {:induction false} FirstLap(s: seq<BlockKey>, m: map<BlockKey, Meta>, i: nat)
    requires i < |s|
    ensures var next := i + 1;
      && Takes(s[..next], m) == Takes(s[..i], m) + (if Victimizable(m, s[i]) then [s[i]] else [])
      && Skips(s[..next], m) == Skips(s[..i], m) + (if Victimizable(m, s[i]) then [] else [s[i]])
      && s[i..] == [s[i]] + s[next..]
  {
    assert s[..i + 1][..i] == s[..i];
  }

  /** One step: the element under the hand goes if it may, and is passed otherwise. */
  lemma {:induction false} SweptNext(s: seq<BlockKey>, m: map<BlockKey, Meta>, order: seq<BlockKey>,
                                     evicted: seq<BlockKey>, steps: nat)
    requires Swept(s, m, order, evicted, steps) && order != []
    ensures var k, next := order[0], steps + 1;
      if Victimizable(m, k) then Swept(s, m, order[1..], evicted + [k], next)
      else Swept(s, m, Rotated(order), evicted, next)
  {
    if steps < |s| {
      FirstLap(s, m, steps);
      assert order[1..] == s[steps + 1..] + Skips(s[..steps], m);
    } else {
      assert order[0] in order;
      if steps == |s| { LapDone(s, m, order, evicted); }
    }
  }

  lemma {:induction false} LapDone(s: seq<BlockKey>, m: map<BlockKey, Meta>, order: seq<BlockKey>,
                                   evicted: seq<BlockKey>)
    requires Swept(s, m, order, evicted, |s|)
    ensures evicted == Takes(s, m) && forall k :: k in order ==> k in s && !Victimizable(m, k)
  {
    assert s[..|s|] == s && order == Skips(s, m);
    Split(s, m);
  }

  lemma {:induction false} AllTaken(s: seq<BlockKey>, m: map<BlockKey, Meta>)
    requires forall k :: k in s ==> Victimizable(m, k)
    ensures Takes(s, m) == s && Skips(s, m) == []
  {
    if s != [] { AllTaken(s[..|s| - 1], m); }
  }

  lemma {:induction false} HeadIn(s: seq<BlockKey>)
    ensures s != [] ==> s[0] in s
  {
  }

  /** A sweep evicts a prefix of what may be evicted; if it stops short of that, it has made
      `steps` steps over what it evicted and what it passed. */
  lemma {:induction false} SweptPrefix(s: seq<BlockKey>, m: map<BlockKey, Meta>, order: seq<BlockKey>,
                                       evicted: seq<BlockKey>, steps: nat)
    requires Swept(s, m, order, evicted, steps)
    ensures evicted <= Takes(s, m)
    ensures evicted == Takes(s, m) || steps <= |evicted| + |Skips(s, m)|
    ensures order == [] ==> evicted == Takes(s, m)
    ensures (forall k :: k in s ==> Victimizable(m, k)) ==> evicted + order == s
  {
    if steps <= |s| {
      Prefix(s, m, steps);
      Split(s[..steps], m);
      if order == [] { assert s[..steps] == s; }
      if forall k :: k in s ==> Victimizable(m, k) {
        AllTaken(s[..steps], m);
        assert s[..steps] + (s[steps..] + []) == s;
      }
    } else if forall k :: k in s ==> Victimizable(m, k) {
      AllTaken(s, m);
      HeadIn(order);
    }
  }
}
