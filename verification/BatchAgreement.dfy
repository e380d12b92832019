/** When a batch decides as the same PUTs made one by one, and what it charges. The conditions
    speak of the single PUTs only: `After` is the state they lead to. */
module BatchAgreement {
  import opened Types
  import opened BatchAdmission

  /** The tenant's quota refuses a sum that was cut off at 64 bits. */
  predicate Refuses(env: Env, g: Group, t: nat) {
    0 < env.limit(t) < g.used(t) + UINT64_MAX
  }

  /** After `j` single PUTs the key of `it` is not stored yet, and the tenant's new bytes with
      those of `it` pass 64 bits. */
  predicate PassesAt(env: Env, g: Group, items: seq<Item>, it: Item, j: nat)
    requires j <= |items|
  {
    var h, t := After(env, g, items[..j]), it.key.tenant;
    it.key !in h.present && h.used(t) + it.len > g.used(t) + UINT64_MAX
  }

  predicate Passes(env: Env, g: Group, items: seq<Item>, it: Item) {
    exists j :: 0 <= j <= |items| && PassesAt(env, g, items, it, j)
  }

  /** A valid item of a limited tenant, new to the store. */
  predicate Weighed(env: Env, g: Group, it: Item) {
    && it.len != 0 && it.data && env.route(it.key).Some? && it.fault.None? && it.key !in g.present
    && env.limit(it.key.tenant) != 0
  }

  /** The batch cuts a sum off and so refuses a key that the PUTs before have stored, or, with
      the largest limit and nothing used, accepts one that does not fit. */
  predicate Differs(env: Env, g: Group, items: seq<Item>, it: Item) {
    && Weighed(env, g, it) && Passes(env, g, items, it)
    && (it.key in After(env, g, items).present <==> Refuses(env, g, it.key.tenant))
  }

  predicate Agreeable(env: Env, g: Group, items: seq<Item>) {
    forall n :: 0 <= n < |items| ==> !Differs(env, g, items[..n], items[n])
  }

  // ------------------------------------------------------------ single PUTs

  /** Exactly what was stored or accepted on the way is stored. */
  lemma {:induction false} PresentExact(env: Env, g: Group, items: seq<Item>, k: BlockKey)
    ensures k in After(env, g, items).present
      <==> k in g.present || EarlierOk(items, Answers(env, g, items), k)
  {
    if items != [] {
      var n := |items| - 1;
      PresentExact(env, g, items[..n], k);
      PresentExact(env, g, items[..n], items[n].key);
      var out, st := Answers(env, g, items[..n]), Answer(env, After(env, g, items[..n]), items[n]);
      EarlierGrows(items[..n], out, items[n], st, k);
      assert items == items[..n] + [items[n]];
    }
  }

  /** Single PUTs only add bytes, and never past a limit. */
  lemma {:induction false} UsedGrows(env: Env, g: Group, items: seq<Item>, j: nat, t: nat)
    requires j <= |items|
    ensures var h, u := After(env, g, items[..j]), After(env, g, items);
      h.used(t) <= u.used(t) && (env.limit(t) != 0 ==> u.used(t) <= h.used(t) || u.used(t) <= env.limit(t))
  {
    if j == |items| {
      assert items[..j] == items;
    } else {
      UsedGrows(env, g, items[..|items| - 1], j, t);
      assert items[..|items| - 1][..j] == items[..j];
    }
  }

  lemma {:induction false} AnswersPrefix(env: Env, g: Group, items: seq<Item>, j: nat)
    requires j <= |items|
    ensures Answers(env, g, items[..j]) == Answers(env, g, items)[..j]
  {
    if j == |items| {
      assert items[..j] == items;
    } else {
      AnswersPrefix(env, g, items[..|items| - 1], j);
      assert items[..|items| - 1][..j] == items[..j];
    }
  }

  // ------------------------------------------------------------ the batch

  lemma {:induction false} BatchPrefix(env: Env, g: Group, items: seq<Item>, j: nat)
    requires j <= |items|
    ensures var a, b := Batch(env, g, items[..j]), Batch(env, g, items); a.0 == b.0[..j] && a.1 == b.1[..j]
  {
    if j == |items| {
      assert items[..j] == items;
    } else {
      BatchPrefix(env, g, items[..|items| - 1], j);
      assert items[..|items| - 1][..j] == items[..j];
    }
  }

  /** Only what is accepted is charged. */
  lemma {:induction false} ChargedIsOk(env: Env, g: Group, items: seq<Item>, j: nat)
    requires j < |items| && Batch(env, g, items).1[j]
    ensures Batch(env, g, items).0[j] == Ok
  {
    if j < |items| - 1 { ChargedIsOk(env, g, items[..|items| - 1], j); }
  }

  lemma {:induction false} LookedInBatch(env: Env, g: Group, items: seq<Item>, it: Item)
    ensures var (out, charge) := Batch(env, g, items); var l := Looked(items, out, charge, it);
      && l.additional <= UINT64_MAX
      && (!Overflows(items, out, charge, it) ==>
        l.duplicate == EarlierOk(items, out, it.key) && l.stopped == l.duplicate)
      && (!l.stopped ==> l.additional == it.len + Charged(items, charge, it.key.tenant))
      && (Overflows(items, out, charge, it)
        ==> l.additional == UINT64_MAX < it.len + Charged(items, charge, it.key.tenant))
  {
    var (out, charge) := Batch(env, g, items);
    forall j | 0 <= j < |items| && charge[j] ensures out[j] == Ok { ChargedIsOk(env, g, items, j); }
    LookedExact(items, out, charge, it);
  }

  /** The sum of the first `j` items is cut off before the key is found. */
  predicate CutAt(items: seq<Item>, out: seq<Status>, charge: seq<bool>, it: Item, j: nat)
    requires |out| == |items| && |charge| == |items| && j <= |items|
  {
    !EarlierOk(items[..j], out[..j], it.key) && it.len + Charged(items[..j], charge[..j], it.key.tenant) > UINT64_MAX
  }

  lemma {:induction false} CutEarlier(items: seq<Item>, out: seq<Status>, charge: seq<bool>, it: Item, j: nat)
    requires |out| == |items| && |charge| == |items| && j < |items|
    ensures var n := |items| - 1; CutAt(items, out, charge, it, j) == CutAt(items[..n], out[..n], charge[..n], it, j)
  {
    var n := |items| - 1;
    assert items[..n][..j] == items[..j] && out[..n][..j] == out[..j] && charge[..n][..j] == charge[..j];
  }

  lemma {:induction false} CutNext(items: seq<Item>, out: seq<Status>, charge: seq<bool>, it: Item)
    requires |out| == |items| && |charge| == |items| && forall j :: 0 <= j < |items| && charge[j] ==> out[j] == Ok
    requires items != []
    ensures var n := |items| - 1;
      Overflows(items, out, charge, it)
      <==> Overflows(items[..n], out[..n], charge[..n], it) || CutAt(items, out, charge, it, |items|)
  {
    var n := |items| - 1;
    assert items[..|items|] == items && out[..|items|] == out && charge[..|items|] == charge;
    LookedExact(items, out, charge, it);
    LookedExact(items[..n], out[..n], charge[..n], it);
    assert items == items[..n] + [items[n]] && out == out[..n] + [out[n]];
    EarlierGrows(items[..n], out[..n], items[n], out[n], it.key);
  }

  /** The inner loop overflows exactly when some sum is cut off. */
  lemma {:induction false} OverflowsExact(items: seq<Item>, out: seq<Status>, charge: seq<bool>, it: Item)
    requires |out| == |items| && |charge| == |items| && forall j :: 0 <= j < |items| && charge[j] ==> out[j] == Ok
    ensures Overflows(items, out, charge, it) <==> exists j :: 0 <= j <= |items| && CutAt(items, out, charge, it, j)
  {
    if items != [] {
      var n := |items| - 1;
      var p, q, c := items[..n], out[..n], charge[..n];
      OverflowsExact(p, q, c, it);
      CutNext(items, out, charge, it);
      forall j: nat | j <= n ensures CutAt(items, out, charge, it, j) == CutAt(p, q, c, it, j) {
        CutEarlier(items, out, charge, it, j);
      }
    }
  }

  // ------------------------------------------------------------ agreement

  /** Where the answers agree, the batch's charge of an item is the new bytes of its PUT, if the
      tenant's quota refuses a cut sum or there is none. */
  lemma {:induction false} ChargeExact(env: Env, g: Group, items: seq<Item>, it: Item)
    requires var (out, charge) := Batch(env, g, items);
      && out == Answers(env, g, items)
      && Verdict(env, g, items, out, charge, it).0 == Answer(env, After(env, g, items), it)
      && (Refuses(env, g, it.key.tenant) || !Overflows(items, out, charge, it))
    ensures var (out, charge) := Batch(env, g, items);
      Verdict(env, g, items, out, charge, it).1 == Charges(env, After(env, g, items), it)
  {
    PresentExact(env, g, items, it.key);
    LookedInBatch(env, g, items, it);
  }

  /** Where the answers agree, the batch's charges are the bytes that single PUTs bring. */
  lemma {:induction false} UsedExact(env: Env, g: Group, items: seq<Item>, t: nat)
    requires Batch(env, g, items).0 == Answers(env, g, items)
    requires Refuses(env, g, t) || Lengths(items) <= UINT64_MAX
    ensures After(env, g, items).used(t) == g.used(t) + Charged(items, Batch(env, g, items).1, t)
  {
    if items != [] {
      var n := |items| - 1;
      var p, it := items[..n], items[n];
      BatchPrefix(env, g, items, n);
      AnswersPrefix(env, g, items, n);
      UsedExact(env, g, p, t);
      if it.key.tenant == t {
        if Lengths(items) <= UINT64_MAX { NoneCut(env, g, p, it); }
        ChargeExact(env, g, p, it);
      }
    }
  }

  lemma {:induction false} NoneCut(env: Env, g: Group, items: seq<Item>, it: Item)
    requires Lengths(items) + it.len <= UINT64_MAX
    ensures var (out, charge) := Batch(env, g, items); !Overflows(items, out, charge, it)
  {
    LookedInBatch(env, g, items, it);
    ChargedBounded(items, Batch(env, g, items).1, it.key.tenant);
  }

  /** The inner loop of the batch overflows exactly when the single PUTs pass 64 bits. */
  lemma {:induction false} OverflowsIsPasses(env: Env, g: Group, items: seq<Item>, it: Item)
    requires Batch(env, g, items).0 == Answers(env, g, items) && Refuses(env, g, it.key.tenant)
    requires it.key !in g.present
    ensures var (out, charge) := Batch(env, g, items);
      Overflows(items, out, charge, it) <==> Passes(env, g, items, it)
  {
    var (out, charge) := Batch(env, g, items);
    forall j | 0 <= j < |items| && charge[j] ensures out[j] == Ok { ChargedIsOk(env, g, items, j); }
    OverflowsExact(items, out, charge, it);
    forall j: nat | j <= |items| ensures CutAt(items, out, charge, it, j) == PassesAt(env, g, items, it, j) {
      BatchPrefix(env, g, items, j);
      AnswersPrefix(env, g, items, j);
      PresentExact(env, g, items[..j], it.key);
      UsedExact(env, g, items[..j], it.key.tenant);
    }
  }

  /** With the largest limit and nothing used the batch accepts everything valid. */
  lemma {:induction false} CutSumFits(env: Env, g: Group, items: seq<Item>, it: Item)
    requires Weighed(env, g, it) && !Refuses(env, g, it.key.tenant)
    ensures var (out, charge) := Batch(env, g, items); Verdict(env, g, items, out, charge, it).0 == Ok
    ensures Passes(env, g, items, it) && it.key !in After(env, g, items).present
      <==> Answer(env, After(env, g, items), it) == QuotaExceeded
  {
    LookedInBatch(env, g, items, it);
    var t, h := it.key.tenant, After(env, g, items);
    assert items[..|items|] == items;
    assert PassesAt(env, g, items, it, |items|) <==> it.key !in h.present && h.used(t) + it.len > UINT64_MAX;
    if j :| 0 <= j <= |items| && PassesAt(env, g, items, it, j) { UsedGrows(env, g, items, j, t); }
  }

  /** One decision of the batch, after answers that agree, is the answer of a single PUT exactly
      if it is not one that differs. */
  lemma {:induction false} VerdictIsAnswer(env: Env, g: Group, items: seq<Item>, it: Item)
    requires Batch(env, g, items).0 == Answers(env, g, items)
    ensures var (out, charge) := Batch(env, g, items);
      Verdict(env, g, items, out, charge, it).0 == Answer(env, After(env, g, items), it)
      <==> !Differs(env, g, items, it)
  {
    PresentExact(env, g, items, it.key);
    LookedInBatch(env, g, items, it);
    if Weighed(env, g, it) {
      if Refuses(env, g, it.key.tenant) {
        OverflowsIsPasses(env, g, items, it);
        UsedExact(env, g, items, it.key.tenant);
      } else {
        CutSumFits(env, g, items, it);
      }
    }
  }

  /** A batch decides as the same PUTs made one by one exactly if none of its decisions
      differs, for every batch and every quota. */
  lemma {:induction false} BatchAgrees(env: Env, g: Group, items: seq<Item>)
    ensures Batch(env, g, items).0 == Answers(env, g, items) <==> Agreeable(env, g, items)
  {
    if items != [] {
      var n := |items| - 1;
      BatchAgrees(env, g, items[..n]);
      BatchPrefix(env, g, items, n);
      AnswersPrefix(env, g, items, n);
      forall i | 0 <= i < n ensures items[..n][..i] == items[..i] && items[..n][i] == items[i] { }
      AgreeableNext(env, g, items);
      if Agreeable(env, g, items[..n]) { VerdictIsAnswer(env, g, items[..n], items[n]); }
    }
  }

  lemma {:induction false} AgreeableNext(env: Env, g: Group, items: seq<Item>)
    requires items != []
    ensures var n := |items| - 1;
      Agreeable(env, g, items) <==> Agreeable(env, g, items[..n]) && !Differs(env, g, items[..n], items[n])
  {
    var n := |items| - 1;
    var p := items[..n];
    forall i | 0 <= i < n ensures p[..i] == items[..i] { }
    if Agreeable(env, g, items) {
      forall i | 0 <= i < n ensures !Differs(env, g, p[..i], p[i]) { assert !Differs(env, g, items[..i], items[i]); }
    }
    if Agreeable(env, g, p) && !Differs(env, g, p, items[n]) {
      forall i | 0 <= i <= n ensures !Differs(env, g, items[..i], items[i]) {
        if i < n { assert !Differs(env, g, p[..i], p[i]); }
      }
    }
  }

  lemma {:induction false} UsedBounded(env: Env, g: Group, items: seq<Item>, j: nat, t: nat)
    requires j <= |items|
    ensures After(env, g, items[..j]).used(t) <= g.used(t) + Lengths(items)
  {
    if items != [] {
      var n := |items| - 1;
      if j <= n {
        UsedBounded(env, g, items[..n], j, t);
        assert items[..n][..j] == items[..j];
      } else {
        UsedBounded(env, g, items[..n], n, t);
        assert items[..j] == items && items[..n][..n] == items[..n];
      }
    }
  }

  lemma {:induction false} ShortAgrees(env: Env, g: Group, items: seq<Item>)
    requires Lengths(items) <= UINT64_MAX
    ensures Agreeable(env, g, items)
  {
    if items != [] {
      var n := |items| - 1;
      ShortAgrees(env, g, items[..n]);
      AgreeableNext(env, g, items);
      forall j: nat | j <= n ensures !PassesAt(env, g, items[..n], items[n], j) {
        UsedBounded(env, g, items[..n], j, items[n].key.tenant);
      }
    }
  }

  /** If the lengths add up within 64 bits, the batch decides as the same PUTs made one by one,
      and its charges are exactly their new bytes. */
  lemma {:induction false} BatchIsSequential(env: Env, g: Group, items: seq<Item>)
    requires Lengths(items) <= UINT64_MAX
    ensures Batch(env, g, items).0 == Answers(env, g, items)
    ensures forall t: nat :: After(env, g, items).used(t) == g.used(t) + Charged(items, Batch(env, g, items).1, t)
  {
    ShortAgrees(env, g, items);
    BatchAgrees(env, g, items);
    forall t: nat
      ensures After(env, g, items).used(t) == g.used(t) + Charged(items, Batch(env, g, items).1, t) {
      UsedExact(env, g, items, t);
    }
  }

  // ------------------------------------------------------------ batches that differ

  lemma {:induction false} OneMore(env: Env, g: Group, items: seq<Item>, it: Item)
    ensures After(env, g, items + [it]) == AfterOne(env, After(env, g, items), it)
    ensures Answers(env, g, items + [it]) == Answers(env, g, items) + [Answer(env, After(env, g, items), it)]
    ensures var (out, charge) := Batch(env, g, items); var v := Verdict(env, g, items, out, charge, it);
      Batch(env, g, items + [it]).0 == out + [v.0] && Batch(env, g, items + [it]).1 == charge + [v.1]
    ensures Lengths(items + [it]) == Lengths(items) + it.len
    ensures var (out, charge) := Batch(env, g, items); var v := Verdict(env, g, items, out, charge, it);
      Charged(items + [it], Batch(env, g, items + [it]).1, it.key.tenant)
      == Charged(items, charge, it.key.tenant) + if v.1 then it.len else 0
  {
    assert (items + [it])[..|items|] == items;
    BatchPrefix(env, g, items + [it], |items|);
  }

  /** Two new items of one tenant that fit its limit, one by one. */
  predicate Fit(env: Env, g: Group, a: Item, b: Item) {
    && Weighed(env, g, a) && Weighed(env, g, b) && a.key != b.key && a.key.tenant == b.key.tenant
    && g.used(a.key.tenant) + a.len + b.len <= env.limit(a.key.tenant)
  }

  lemma {:induction false} TwoAccepted(env: Env, g: Group, a: Item, b: Item)
    requires Fit(env, g, a, b)
    ensures Batch(env, g, [a] + [b]).0 == Answers(env, g, [a] + [b]) == [Ok] + [Ok]
    ensures b.key in After(env, g, [a] + [b]).present && b.key !in After(env, g, [a]).present
    ensures After(env, g, [a]).used(a.key.tenant) == g.used(a.key.tenant) + a.len
  {
    assert [] + [a] == [a];
    OneMore(env, g, [], a);
    OneMore(env, g, [a], b);
    BatchIsSequential(env, g, [a] + [b]);
  }

  /** A batch that refuses what single PUTs accept: a second PUT of `b`, declared so long that
      the sum passes 64 bits at `a`, before the loop reaches the first one. */
  lemma {:induction false} OverflowHidesDuplicate(env: Env, g: Group, a: Item, b: Item)
    requires Fit(env, g, a, b) && Refuses(env, g, a.key.tenant)
    ensures var items := [a, b, b.(len := UINT64_MAX)];
      Batch(env, g, items).0 == [Ok, Ok, QuotaExceeded] && Answers(env, g, items) == [Ok, Ok, Ok]
  {
    var c, p := b.(len := UINT64_MAX), [a] + [b];
    TwoAccepted(env, g, a, b);
    OneMore(env, g, p, c);
    assert p[..1] == [a] && PassesAt(env, g, p, c, 1);
    assert Differs(env, g, p, c);
    VerdictIsAnswer(env, g, p, c);
    assert [a, b, c] == p + [c];
  }

  /** A batch that accepts what single PUTs refuse: with the largest limit and nothing used, the
      cut sum of two items that together pass 64 bits still fits. */
  lemma {:induction false} CutSumAccepted(env: Env, g: Group, a: Item, b: Item)
    requires Weighed(env, g, a) && Weighed(env, g, b) && a.key != b.key && a.key.tenant == b.key.tenant
    requires !Refuses(env, g, a.key.tenant) && a.len + b.len > UINT64_MAX
    ensures Batch(env, g, [a, b]).0 == [Ok, Ok] && Answers(env, g, [a, b]) == [Ok, QuotaExceeded]
    ensures !Within(env, g, [a, b], a.key.tenant)
  {
    assert [] + [a] == [a] && [a] + [b] == [a, b];
    OneMore(env, g, [], a);
    OneMore(env, g, [a], b);
    CutSumFits(env, g, [a], b);
    LookedInBatch(env, g, [a], b);
  }

  // ------------------------------------------------------------ limits

  /** What the batch charges the tenant fits its limit. */
  predicate Within(env: Env, g: Group, items: seq<Item>, t: nat) {
    var c := Charged(items, Batch(env, g, items).1, t);
    c == 0 || g.used(t) + c <= env.limit(t)
  }

  /** A batch never charges a tenant past a limit that refuses cut sums, whatever its lengths. */
  lemma {:induction false} NeverPastLimit(env: Env, g: Group, items: seq<Item>, t: nat)
    requires Refuses(env, g, t)
    ensures Within(env, g, items, t)
  {
    if items != [] {
      var n := |items| - 1;
      NeverPastLimit(env, g, items[..n], t);
      BatchPrefix(env, g, items, n);
      LookedInBatch(env, g, items[..n], items[n]);
    }
  }

  /** The exact condition: the limit of a tenant that has two keys to store binds every batch if
      and only if it refuses cut sums. */
  lemma {:induction false} LimitBinds(env: Env, g: Group, j: BlockKey, k: BlockKey)
    requires j != k && j.tenant == k.tenant && env.limit(j.tenant) != 0
    requires j !in g.present && k !in g.present && env.route(j).Some? && env.route(k).Some?
    ensures (forall items :: Within(env, g, items, j.tenant)) <==> Refuses(env, g, j.tenant)
  {
    if Refuses(env, g, j.tenant) {
      forall items ensures Within(env, g, items, j.tenant) { NeverPastLimit(env, g, items, j.tenant); }
    } else {
      var a, b := Item(j, UINT64_MAX, true, None), Item(k, 1, true, None);
      CutSumAccepted(env, g, a, b);
      assert !Within(env, g, [a, b], j.tenant);
    }
  }
}
