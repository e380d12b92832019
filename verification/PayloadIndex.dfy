/** The commit map of a store and the byte counters kept beside it: the total and what each
    tenant uses, which quota admission relies on. */
module PayloadIndex {
  import opened Types
  import opened Sums

  datatype Payload = Payload(tenant: nat, len: nat)

  function Length(): Payload -> int {
    (p: Payload) => p.len
  }

  function LengthOf(tenant: nat): Payload -> int {
    (p: Payload) => if p.tenant == tenant then p.len else 0
  }

  /** The tenant counters are right for `tenant`; a tenant that uses nothing may be absent. */
  ghost predicate TenantOk(payloads: map<BlockKey, Payload>, tenants: map<nat, int>, tenant: nat) {
    (if tenant in tenants then tenants[tenant] else 0) == Sum(payloads, LengthOf(tenant))
  }

  class CommitMap {
    var payloads: map<BlockKey, Payload>
    var total: int
    var tenants: map<nat, int>

    ghost predicate Valid() reads this {
      && (forall k :: k in payloads ==> payloads[k].tenant == k.tenant)
      && total == Sum(payloads, Length())
      && (forall t :: TenantOk(payloads, tenants, t))
    }

    constructor ()
      ensures Valid() && payloads == map[]
    {
      payloads, total, tenants := map[], 0, map[];
      new;
      forall t ensures TenantOk(payloads, tenants, t) { }
    }

    function Used(tenant: nat): int reads this {
      if tenant in tenants then tenants[tenant] else 0
    }

    /** Commits `len` bytes under `k`, replacing what was committed before. */
    method Commit(k: BlockKey, len: nat)
      requires Valid()
      modifies this
      ensures Valid() && payloads == old(payloads)[k := Payload(k.tenant, len)]
    {
      var was := if k in payloads then payloads[k].len else 0;
      ghost var m, n, ts := payloads, payloads[k := Payload(k.tenant, len)], tenants;
      assert m - {k} == n - {k};
      SumApart(m, n, k, Length());
      payloads := payloads[k := Payload(k.tenant, len)];
      total := total - was + len;
      tenants := tenants[k.tenant := Used(k.tenant) - was + len];
      forall t ensures TenantOk(n, tenants, t) {
        assert TenantOk(m, ts, t);
        SumApart(m, n, k, LengthOf(t));
      }
    }

    /** Forgets `k` and returns the bytes it held. */
    method Erase(k: BlockKey) returns (len: nat)
      requires Valid()
      modifies this
      ensures Valid() && payloads == old(payloads) - {k}
      ensures len == if k in old(payloads) then old(payloads)[k].len else 0
    {
      if k !in payloads {
        assert payloads - {k} == payloads;
        return 0;
      }
      len := payloads[k].len;
      ghost var m, n, ts := payloads, payloads - {k}, tenants;
      assert m - {k} == n - {k};
      SumApart(m, n, k, Length());
      payloads := payloads - {k};
      total := total - len;
      var left := Used(k.tenant) - len;
      tenants := if left == 0 then tenants - {k.tenant} else tenants[k.tenant := left];
      forall t ensures TenantOk(n, tenants, t) {
        assert TenantOk(m, ts, t);
        SumApart(m, n, k, LengthOf(t));
      }
    }

    /** Forgets every evicted key and returns the bytes they held together. */
    method EraseAll(keys: seq<BlockKey>) returns (bytes: int)
      requires Valid()
      modifies this
      ensures Valid() && payloads == old(payloads) - (set k | k in keys)
      ensures bytes == old(total) - total
    {
      bytes := 0;
      var i := 0;
      assert payloads - (set k | k in keys[..0]) == payloads;
      while i < |keys|
        invariant i <= |keys| && Valid() && payloads == old(payloads) - (set k | k in keys[..i])
          && bytes == old(total) - total
      {
        ghost var before := total;
        var len := Erase(keys[i]);
        ErasedBytes(old(payloads) - (set k | k in keys[..i]), keys[i]);
        assert keys[..i + 1] == keys[..i] + [keys[i]];
        bytes := bytes + len;
        i := i + 1;
      }
      assert keys[..i] == keys;
    }
  }

  lemma {:induction false} ErasedBytes(m: map<BlockKey, Payload>, k: BlockKey)
    ensures Sum(m, Length()) == Sum(m - {k}, Length()) + (if k in m then m[k].len else 0)
  {
    if k in m { SumRemove(m, k, Length()); } else { assert m - {k} == m; }
  }
}
