/** Quota admission of a batch of PUTs across the disks of a node, against the same PUTs made
    one after another. */
module BatchAdmission {
  import opened Types

  const UINT64_MAX: nat := 0xFFFF_FFFF_FFFF_FFFF

  type U64 = x: nat | x <= UINT64_MAX

  datatype Status = Ok | Invalid | NotFound | QuotaExceeded | IOError

  /** What a lookup reports when it neither finds the key nor misses it. */
  type Failure = s: Status | s != Ok && s != NotFound witness IOError

  /** `data` says whether the caller gave a buffer at all, `fault` how the lookup of this item
      fails, if it does. */
  datatype Item = Item(key: BlockKey, len: U64, data: bool, fault: Option<Failure>)

  /** What does not change during a batch: routing and tenant limits (zero means unlimited). */
  datatype Env = Env(route: BlockKey -> Option<nat>, limit: nat -> U64)

  /** Which keys are stored and how many bytes each tenant uses. */
  datatype Group = Group(present: set<BlockKey>, used: nat -> nat)

  predicate QuotaAllows(limit: nat, current: nat, additional: nat) {
    limit == 0 || (current <= limit && additional <= limit - current)
  }

  // ------------------------------------------------------------ one by one

  /** The answer of a single PUT whose engine write succeeds. */
  function Answer(env: Env, g: Group, it: Item): Status {
    if it.len == 0 || !it.data || env.route(it.key).None? then Invalid
    else if it.fault.Some? then it.fault.value
    else if it.key in g.present || QuotaAllows(env.limit(it.key.tenant), g.used(it.key.tenant), it.len) then Ok
    else QuotaExceeded
  }

  /** It brings new bytes. */
  predicate Charges(env: Env, g: Group, it: Item) {
    Answer(env, g, it) == Ok && it.fault.None? && it.key !in g.present
  }

  function AfterOne(env: Env, g: Group, it: Item): Group {
    if !Charges(env, g, it) then g
    else Group(g.present + {it.key}, t => if t == it.key.tenant then g.used(t) + it.len else g.used(t))
  }

  function After(env: Env, g: Group, items: seq<Item>): Group {
    if items == [] then g else AfterOne(env, After(env, g, items[..|items| - 1]), items[|items| - 1])
  }

  function Answers(env: Env, g: Group, items: seq<Item>): (r: seq<Status>)
    ensures |r| == |items|
  {
    if items == [] then []
    else
      var n := |items| - 1;
      Answers(env, g, items[..n]) + [Answer(env, After(env, g, items[..n]), items[n])]
  }

  /** When a single PUT is accepted, when its quota refuses it, and what it brings: nothing for a
      key that is stored, all its bytes for a new one. */
  lemma {:induction false} AnswerExact(env: Env, g: Group, it: Item)
    ensures var t, h := it.key.tenant, AfterOne(env, g, it);
      && (Answer(env, g, it) == Ok <==>
        && it.len > 0 && it.data && env.route(it.key).Some? && it.fault.None?
        && (it.key in g.present || env.limit(t) == 0 || g.used(t) + it.len <= env.limit(t)))
      && (it.fault.None? && Answer(env, g, it) == QuotaExceeded <==>
        && it.len > 0 && it.data && env.route(it.key).Some? && it.fault.None?
        && it.key !in g.present && 0 < env.limit(t) < g.used(t) + it.len)
      && (it.len == 0 || !it.data || env.route(it.key).None? ==> Answer(env, g, it) == Invalid)
      && (it.len > 0 && it.data && env.route(it.key).Some? && it.fault.Some? ==> Answer(env, g, it) == it.fault.value)
      && h.used(t) == g.used(t) + (if Answer(env, g, it) == Ok && it.key !in g.present then it.len else 0)
      && h.present == (if Answer(env, g, it) == Ok then g.present + {it.key} else g.present)
      && forall x: nat :: x != t ==> h.used(x) == g.used(x)
  {
    if Answer(env, g, it) == Ok && it.key in g.present { assert g.present + {it.key} == g.present; }
  }

  // ------------------------------------------------------------ bookkeeping of the batch

  /** Bytes charged to `tenant` so far. */
  function Charged(items: seq<Item>, charge: seq<bool>, tenant: nat): nat
    requires |items| == |charge|
  {
    if items == [] then 0
    else
      var n := |items| - 1;
      Charged(items[..n], charge[..n], tenant) + (if charge[n] && items[n].key.tenant == tenant then items[n].len
        else 0)
  }

  function Lengths(items: seq<Item>): nat {
    if items == [] then 0 else Lengths(items[..|items| - 1]) + items[|items| - 1].len
  }

  lemma {:induction false} ChargedBounded(items: seq<Item>, charge: seq<bool>, tenant: nat)
    requires |items| == |charge|
    ensures Charged(items, charge, tenant) <= Lengths(items)
  {
    if items != [] { ChargedBounded(items[..|items| - 1], charge[..|items| - 1], tenant); }
  }

  /** `k` was accepted earlier in the batch. */
  predicate EarlierOk(items: seq<Item>, out: seq<Status>, k: BlockKey)
    requires |out| == |items|
  {
    exists j :: 0 <= j < |items| && out[j] == Ok && items[j].key == k
  }

  /** The inner loop over the items before `it`: it stops at an accepted item with the same key,
      and also when the bytes to charge pass 64 bits. */
  datatype Look = Look(duplicate: bool, stopped: bool, additional: nat)

  function Looked(items: seq<Item>, out: seq<Status>, charge: seq<bool>, it: Item): Look
    requires |out| == |items| && |charge| == |items|
  {
    if items == [] then Look(false, false, it.len)
    else
      var n := |items| - 1;
      var l := Looked(items[..n], out[..n], charge[..n], it);
      if l.stopped || out[n] != Ok || items[n].key.tenant != it.key.tenant then l
      else if items[n].key == it.key then Look(true, true, l.additional)
      else if !charge[n] then l
      else if l.additional + items[n].len > UINT64_MAX then Look(false, true, UINT64_MAX)
      else l.(additional := l.additional + items[n].len)
  }

  /** The loop stopped because of an overflow. */
  predicate Overflows(items: seq<Item>, out: seq<Status>, charge: seq<bool>, it: Item)
    requires |out| == |items| && |charge| == |items|
  {
    var l := Looked(items, out, charge, it); l.stopped && !l.duplicate
  }

  /** Short of an overflow the loop finds every duplicate and sums up every charge. */
  lemma {:induction false} LookedExact(items: seq<Item>, out: seq<Status>, charge: seq<bool>, it: Item)
    requires |out| == |items| && |charge| == |items| && forall j :: 0 <= j < |items| && charge[j] ==> out[j] == Ok
    ensures var l := Looked(items, out, charge, it);
      && l.additional <= UINT64_MAX
      && (!Overflows(items, out, charge, it) ==>
        l.duplicate == EarlierOk(items, out, it.key) && l.stopped == l.duplicate)
      && (!l.stopped ==> l.additional == it.len + Charged(items, charge, it.key.tenant))
      && (Overflows(items, out, charge, it)
        ==> l.additional == UINT64_MAX < it.len + Charged(items, charge, it.key.tenant))
  {
    if items != [] {
      var n := |items| - 1;
      LookedExact(items[..n], out[..n], charge[..n], it);
      assert items == items[..n] + [items[n]] && out == out[..n] + [out[n]];
      EarlierGrows(items[..n], out[..n], items[n], out[n], it.key);
    }
  }

  /** What the batch decides for its next item. */
  function Verdict(env: Env, g: Group, items: seq<Item>, out: seq<Status>, charge: seq<bool>, it: Item): (Status, bool)
    requires |out| == |items| && |charge| == |items|
  {
    if it.len == 0 || !it.data || env.route(it.key).None? then (Invalid, false)
    else if it.fault.Some? then (it.fault.value, false)
    else if it.key in g.present then (Ok, false)
    else
      var l := Looked(items, out, charge, it);
      if l.duplicate then (Ok, false)
      else if QuotaAllows(env.limit(it.key.tenant), g.used(it.key.tenant), l.additional) then (Ok, true)
      else (QuotaExceeded, false)
  }

  /** The batch, item by item. */
  function Batch(env: Env, g: Group, items: seq<Item>): (r: (seq<Status>, seq<bool>))
    ensures |r.0| == |items| && |r.1| == |items|
  {
    if items == [] then ([], [])
    else
      var n := |items| - 1;
      var (out, charge) := Batch(env, g, items[..n]);
      var v := Verdict(env, g, items[..n], out, charge, items[n]);
      (out + [v.0], charge + [v.1])
  }

  lemma {:induction false} EarlierGrows(items: seq<Item>, out: seq<Status>, it: Item, st: Status, k: BlockKey)
    requires |out| == |items|
    ensures EarlierOk(items + [it], out + [st], k) <==> EarlierOk(items, out, k) || (st == Ok && it.key == k)
  {
    var items1, out1 := items + [it], out + [st];
    if EarlierOk(items, out, k) {
      var j :| 0 <= j < |items| && out[j] == Ok && items[j].key == k;
      assert out1[j] == Ok && items1[j].key == k;
    }
    if st == Ok && it.key == k { assert out1[|items|] == Ok && items1[|items|].key == k; }
    if EarlierOk(items1, out1, k) {
      var j :| 0 <= j < |items1| && out1[j] == Ok && items1[j].key == k;
      assert j < |items| ==> out[j] == Ok && items[j].key == k;
    }
  }

  // ------------------------------------------------------------ the batch

  method Earlier(items: seq<Item>, out: seq<Status>, charge: seq<bool>, it: Item)
    returns (duplicate: bool, additional: nat)
    requires |out| == |items| && |charge| == |items|
    ensures var l := Looked(items, out, charge, it); duplicate == l.duplicate && additional == l.additional
  {
    duplicate, additional := false, it.len;
    var stopped := false;
    var j := 0;
    while j < |items| && !stopped
      invariant (duplicate ==> stopped) && j <= |items|
      invariant Looked(items[..j], out[..j], charge[..j], it) == Look(duplicate, stopped, additional)
      decreases |items| - j
    {
      LookedNext(items, out, charge, it, j);
      if out[j] == Ok && items[j].key.tenant == it.key.tenant {
        if items[j].key == it.key {
          duplicate, stopped := true, true;
        } else if charge[j] {
          if additional + items[j].len > UINT64_MAX {
            additional, stopped := UINT64_MAX, true;
          } else {
            additional := additional + items[j].len;
          }
        }
      }
      ghost var i := j + 1;
      assert Looked(items[..i], out[..i], charge[..i], it) == Look(duplicate, stopped, additional);
      j := j + 1;
    }
    StoppedStays(items, out, charge, it, j);
  }

  lemma {:induction false} LookedNext(items: seq<Item>, out: seq<Status>, charge: seq<bool>, it: Item, j: nat)
    requires |out| == |items| && |charge| == |items| && j < |items|
    ensures var l, i := Looked(items[..j], out[..j], charge[..j], it), j + 1;
      Looked(items[..i], out[..i], charge[..i], it) ==
        if l.stopped || out[j] != Ok || items[j].key.tenant != it.key.tenant then l
        else if items[j].key == it.key then Look(true, true, l.additional)
        else if !charge[j] then l
        else if l.additional + items[j].len > UINT64_MAX then Look(false, true, UINT64_MAX)
        else l.(additional := l.additional + items[j].len)
  {
    assert items[..j + 1][..j] == items[..j] && out[..j + 1][..j] == out[..j] && charge[..j + 1][..j] == charge[..j];
  }

  lemma {:induction false} StoppedStays(items: seq<Item>, out: seq<Status>, charge: seq<bool>, it: Item, j: nat)
    requires |out| == |items| && |charge| == |items| && j <= |items|
    requires j == |items| || Looked(items[..j], out[..j], charge[..j], it).stopped
    ensures Looked(items, out, charge, it) == Looked(items[..j], out[..j], charge[..j], it)
  {
    if j == |items| {
      assert items[..j] == items && out[..j] == out && charge[..j] == charge;
    } else {
      var n := |items| - 1;
      assert items[..n][..j] == items[..j] && out[..n][..j] == out[..j] && charge[..n][..j] == charge[..j];
      StoppedStays(items[..n], out[..n], charge[..n], it, j);
    }
  }

  /** Admission in caller order under the locks of all tenants involved. */
  method Admit(env: Env, g: Group, items: seq<Item>) returns (out: seq<Status>, charge: seq<bool>)
    ensures (out, charge) == Batch(env, g, items)
  {
    out, charge := [], [];
    for i := 0 to |items|
      invariant (out, charge) == Batch(env, g, items[..i])
    {
      var it := items[i];
      assert items[..i + 1][..i] == items[..i];
      var st, ch := Invalid, false;
      if env.route(it.key).Some? && it.len != 0 && it.data {
        if it.fault.Some? {
          st := it.fault.value;
        } else if it.key in g.present {
          st := Ok;
        } else {
          var duplicate, additional := Earlier(items[..i], out, charge, it);
          if duplicate {
            st := Ok;
          } else if QuotaAllows(env.limit(it.key.tenant), g.used(it.key.tenant), additional) {
            st, ch := Ok, true;
          } else {
            st := QuotaExceeded;
          }
        }
      }
      out, charge := out + [st], charge + [ch];
    }
    assert items[..|items|] == items;
  }
}
