/** The disks of a batch: one engine call per disk, and every answer back at its position. */
module BatchDisks {
  import opened Types
  import opened BatchAdmission
  import opened BatchAgreement

  /** Item `i` was admitted and belongs to disk `d`. */
  predicate GoesTo(env: Env, items: seq<Item>, out: seq<Status>, i: nat, d: nat)
    requires |out| == |items|
  {
    i < |items| && out[i] == Ok && env.route(items[i].key) == Some(d)
  }

  predicate Ascending(s: seq<nat>) {
    forall a, b :: 0 <= a < b < |s| ==> s[a] < s[b]
  }

  /** Each disk's group lists exactly its admitted items below `n`, in caller order. */
  ghost predicate Grouped(env: Env, items: seq<Item>, out: seq<Status>, groups: seq<seq<nat>>, n: nat)
    requires |out| == |items|
  {
    forall d: nat :: d < |groups| ==>
      && Ascending(groups[d])
      && forall i: nat :: i in groups[d] <==> i < n && GoesTo(env, items, out, i, d)
  }

  method GroupByDisk(env: Env, items: seq<Item>, out: seq<Status>, disks: nat) returns (groups: seq<seq<nat>>)
    requires |out| == |items| && forall k :: env.route(k).Some? ==> env.route(k).value < disks
    requires forall i :: 0 <= i < |items| && out[i] == Ok ==> env.route(items[i].key).Some?
    ensures |groups| == disks && Grouped(env, items, out, groups, |items|)
  {
    groups := seq(disks, d => []);
    for i := 0 to |items|
      invariant |groups| == disks && Grouped(env, items, out, groups, i)
    {
      if out[i] == Ok {
        var d := env.route(items[i].key).value;
        ghost var before := groups;
        groups := groups[d := groups[d] + [i]];
        GroupsGrow(env, items, out, before, i, d);
      } else {
        GroupsSkip(env, items, out, groups, i);
      }
    }
  }

  lemma {:induction false} GroupsGrow(env: Env, items: seq<Item>, out: seq<Status>, groups: seq<seq<nat>>, i: nat,
                                      d: nat)
    requires |out| == |items| && i < |items| && Grouped(env, items, out, groups, i) && d < |groups|
    requires out[i] == Ok && env.route(items[i].key) == Some(d)
    ensures Grouped(env, items, out, groups[d := groups[d] + [i]], i + 1)
  {
    var next := groups[d := groups[d] + [i]];
    forall e: nat | e < |next|
      ensures Ascending(next[e]) && forall x: nat :: x in next[e] <==> x < i + 1 && GoesTo(env, items, out, x, e) {
      assert Ascending(groups[e]);
      forall x: nat ensures x in next[e] <==> x < i + 1 && GoesTo(env, items, out, x, e) {
        assert x in groups[e] <==> x < i && GoesTo(env, items, out, x, e);
      }
      if e == d {
        forall a | 0 <= a < |groups[d]| ensures groups[d][a] < i { assert groups[d][a] in groups[d]; }
      }
    }
  }

  lemma {:induction false} GroupsSkip(env: Env, items: seq<Item>, out: seq<Status>, groups: seq<seq<nat>>, i: nat)
    requires |out| == |items| && i < |items| && Grouped(env, items, out, groups, i) && out[i] != Ok
    ensures Grouped(env, items, out, groups, i + 1)
  {
    forall e: nat | e < |groups|
      ensures forall x: nat :: x in groups[e] <==> x < i + 1 && GoesTo(env, items, out, x, e) {
      forall x: nat ensures x in groups[e] <==> x < i + 1 && GoesTo(env, items, out, x, e) {
        assert x in groups[e] <==> x < i && GoesTo(env, items, out, x, e);
      }
    }
  }

  /** An admitted item is in exactly one group, exactly once. */
  lemma {:induction false} OnOneDisk(env: Env, items: seq<Item>, out: seq<Status>, groups: seq<seq<nat>>, i: nat,
                                     d: nat, e: nat, a: nat, b: nat)
    requires |out| == |items| && Grouped(env, items, out, groups, |items|)
    requires d < |groups| && e < |groups| && a < |groups[d]| && b < |groups[e]| && groups[d][a] == i
      && groups[e][b] == i
    ensures d == e && a == b
  {
    assert i in groups[d] && i in groups[e];
    assert GoesTo(env, items, out, i, d) && GoesTo(env, items, out, i, e);
    assert Ascending(groups[d]);
  }

  /** The answer at position `i`: the engine's for an admitted item, at its place in its group,
      or an I/O error if the engine answered fewer; the admission's own for the others. */
  predicate AnswerAt(env: Env, items: seq<Item>, out: seq<Status>, groups: seq<seq<nat>>, engine: seq<seq<Status>>,
                     final: seq<Status>, d: nat, p: nat)
    requires |out| == |items| == |final| && |engine| == |groups| && d < |groups|
  {
    p < |groups[d]| && groups[d][p] < |items| ==>
      final[groups[d][p]] == if p < |engine[d]| then engine[d][p] else IOError
  }

  /** Writes the engines' answers back to the callers' positions. */
  method Scatter(env: Env, items: seq<Item>, out: seq<Status>, groups: seq<seq<nat>>, engine: seq<seq<Status>>)
    returns (final: seq<Status>)
    requires |out| == |items| && |engine| == |groups| && Grouped(env, items, out, groups, |items|)
    ensures |final| == |items|
    ensures forall i :: 0 <= i < |items| && out[i] != Ok ==> final[i] == out[i]
    ensures forall d: nat, p: nat :: d < |groups| ==> AnswerAt(env, items, out, groups, engine, final, d, p)
  {
    final := out;
    for d := 0 to |groups|
      invariant |final| == |items|
      invariant forall i :: 0 <= i < |items| && out[i] != Ok ==> final[i] == out[i]
      invariant forall e: nat, p: nat :: e < d ==> AnswerAt(env, items, out, groups, engine, final, e, p)
    {
      for p := 0 to |groups[d]|
        invariant |final| == |items|
        invariant forall i :: 0 <= i < |items| && out[i] != Ok ==> final[i] == out[i]
        invariant forall e: nat, q: nat ::
          e < d || (e == d && q < p) ==> AnswerAt(env, items, out, groups, engine, final, e, q)
      {
        var i := groups[d][p];
        assert i in groups[d] && GoesTo(env, items, out, i, d);
        ghost var before := final;
        final := final[i := if p < |engine[d]| then engine[d][p] else IOError];
        forall e: nat, q: nat | e < d || (e == d && q <= p)
          ensures AnswerAt(env, items, out, groups, engine, final, e, q) {
          if e < d || q < p {
            assert AnswerAt(env, items, out, groups, engine, before, e, q);
            if q < |groups[e]| && groups[e][q] == i { OnOneDisk(env, items, out, groups, i, d, e, p, q); }
          }
        }
      }
    }
  }

  function Pick(items: seq<Item>, indexes: seq<nat>): (r: seq<Item>)
    requires forall a :: 0 <= a < |indexes| ==> indexes[a] < |items|
    ensures |r| == |indexes|
  {
    seq(|indexes|, a requires 0 <= a < |indexes| => items[indexes[a]])
  }

  /** Every engine write succeeds. */
  ghost predicate AlwaysWrites(write: (nat, seq<Item>) -> seq<Status>) {
    forall d: nat, sub: seq<Item> :: |write(d, sub)| == |sub| && forall p :: 0 <= p < |sub| ==> write(d, sub)[p] == Ok
  }

  /** The whole batch: admission, one engine call per disk, answers at the callers' positions.
      When every write succeeds the answers are those of the same PUTs made one by one, unless
      one of them is a decision in which the two differ. */
  method CacheDirectBatch(env: Env, g: Group, items: seq<Item>, disks: nat, write: (nat, seq<Item>) -> seq<Status>)
    returns (final: seq<Status>)
    requires forall k :: env.route(k).Some? ==> env.route(k).value < disks
    ensures |final| == |items|
    ensures AlwaysWrites(write) ==> final == Batch(env, g, items).0
    ensures forall i :: 0 <= i < |items| && Batch(env, g, items).0[i] != Ok ==> final[i] == Batch(env, g, items).0[i]
    ensures AlwaysWrites(write) ==> (final == Answers(env, g, items) <==> Agreeable(env, g, items))
    ensures AlwaysWrites(write) && Lengths(items) <= UINT64_MAX ==> final == Answers(env, g, items)
  {
    var out, charge := Admit(env, g, items);
    BatchAgrees(env, g, items);
    if Lengths(items) <= UINT64_MAX { BatchIsSequential(env, g, items); }
    forall i | 0 <= i < |items| && out[i] == Ok ensures env.route(items[i].key).Some? { OkIsRouted(env, g, items, i); }
    var groups := GroupByDisk(env, items, out, disks);
    forall d: nat, a | d < disks && 0 <= a < |groups[d]| ensures groups[d][a] < |items| {
      assert groups[d][a] in groups[d];
    }
    var engine := seq(disks, d requires 0 <= d < disks => write(d, Pick(items, groups[d])));
    final := Scatter(env, items, out, groups, engine);
    if AlwaysWrites(write) {
      forall i | 0 <= i < |items| ensures final[i] == out[i] {
        if out[i] == Ok {
          var d := env.route(items[i].key).value;
          assert GoesTo(env, items, out, i, d) && i in groups[d];
          var p :| 0 <= p < |groups[d]| && groups[d][p] == i;
          ghost var sub := Pick(items, groups[d]);
          assert engine[d] == write(d, sub) && |write(d, sub)| == |sub| && write(d, sub)[p] == Ok;
          assert AnswerAt(env, items, out, groups, engine, final, d, p);
        }
      }
    }
  }

  lemma {:induction false} OkIsRouted(env: Env, g: Group, items: seq<Item>, i: nat)
    requires i < |items| && Batch(env, g, items).0[i] == Ok
    ensures env.route(items[i].key).Some?
  {
    var n := |items| - 1;
    if i < n { OkIsRouted(env, g, items[..n], i); }
  }
}
