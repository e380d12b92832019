/** What a PUT evicts to make room in a class without a free slot, and in which order it tries:
    grow the class at the cost of one above the stripe floor, take a cold extent, evict one
    resident of the class by the second-chance rule, take any extent. */
module RoomOrder {
  import opened Types
  import opened SlabPool
  import opened ClockSweep
  import opened StealOrder

  /** The class is below the stripe floor and some class above it can give an extent. */
  ghost predicate CanGrow(p: Pool, c: nat) {
    c < |p.classes| && p.classes[c].bound < STRIPE_WAYS && AnyStealable(p, c, STRIPE_WAYS)
  }

  /** The first two choices. */
  ghost predicate GrowVictims(p: Pool, c: nat, limit: nat, list: seq<BlockKey>) {
    if CanGrow(p, c) then StealsList(p, c, STRIPE_WAYS, list)
    else AnyCold(p, c, limit) && StealsColdList(p, c, limit, list)
  }

  /** The last two. */
  ghost predicate TakeVictims(p: Pool, c: nat, list: seq<BlockKey>) {
    && c < |p.classes|
    && if NoCandidate(p.classes[c].ring, p.residents) then StealsList(p, c, 0, list)
       else |list| == 1 && ClockChoice(p.classes[c].ring, p.residents, list[0])
  }

  ghost predicate RoomVictims(p: Pool, c: nat, limit: nat, list: seq<BlockKey>) {
    if CanGrow(p, c) || AnyCold(p, c, limit) then GrowVictims(p, c, limit, list) else TakeVictims(p, c, list)
  }

  /** What a PUT into class `c` evicts: nothing if there is a free slot or an unbound extent. */
  ghost predicate PutVictims(p: Pool, c: nat, limit: nat, list: seq<BlockKey>) {
    && c < |p.classes|
    && if p.classes[c].free.rr != [] || p.unbound > 0 then list == [] else RoomVictims(p, c, limit, list)
  }

  /** Nothing can be evicted for class `c`: neither a resident of its own nor an extent of
      another class. */
  ghost predicate NoVictim(p: Pool, c: nat) {
    c < |p.classes| && NoCandidate(p.classes[c].ring, p.residents) && !AnyStealable(p, c, 0)
  }

  /** Then the first two choices are out as well. */
  lemma {:induction false} NoVictimNoGrowth(p: Pool, c: nat, limit: nat)
    requires NoVictim(p, c)
    ensures !AnyStealable(p, c, STRIPE_WAYS) && !AnyCold(p, c, limit)
  {
    forall e: nat | e < |p.extents| ensures !Stealable(p, c, STRIPE_WAYS, e) && !Cold(p, c, limit, e) {
      assert !Stealable(p, c, 0, e);
    }
  }
}
