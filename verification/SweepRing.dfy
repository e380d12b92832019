/** The intrusive list behind a sweep order: prev and next links in a dense table, a head
    and a hand. New and refreshed elements are linked just before the hand, so reading the
    list from the hand with wrap-around gives the sweep order. */
module SweepRing {
  import opened SweepOrder

  datatype Link = Link(prev: nat, next: nat)

  const NONE: nat := 0xFFFF_FFFF

  function Prev(order: seq<nat>, i: nat): nat
    requires i < |order|
  {
    if i == 0 then NONE else order[i - 1]
  }

  function Next(order: seq<nat>, i: nat): nat
    requires i < |order|
  {
    if i + 1 == |order| then NONE else order[i + 1]
  }

  predicate NodeOk(links: seq<Link>, order: seq<nat>, i: nat) {
    i < |order| ==>
      && order[i] < |links| && order[i] != NONE
      && links[order[i]] == Link(Prev(order, i), Next(order, i))
  }

  /** `links` threads `order` from its first to its last element. */
  ghost predicate Threaded(links: seq<Link>, order: seq<nat>) {
    && Distinct(order)
    && forall i :: NodeOk(links, order, i)
  }

  /** The list order read from position `p` around. */
  function From(order: seq<nat>, p: nat): seq<nat>
    requires p <= |order|
  {
    order[p..] + order[..p]
  }

  /** The links after `index` was linked before `at`. */
  function LinkedIn(links: seq<Link>, index: nat, at: nat): seq<Link>
    requires index < |links| && at < |links| && (links[at].prev == NONE || links[at].prev < |links|)
  {
    var before := links[at].prev;
    var a := links[index := Link(before, at)];
    var b := if before == NONE then a else a[before := a[before].(next := index)];
    b[at := b[at].(prev := index)]
  }

  lemma {:induction false} LinkInThreads(links: seq<Link>, order: seq<nat>, p: nat, index: nat)
    requires Threaded(links, order) && p < |order| && index < |links| && index != NONE && index !in order
    ensures order[p] < |links| && links[order[p]].prev == Prev(order, p) && (p > 0 ==> order[p - 1] < |links|)
    ensures Threaded(LinkedIn(links, index, order[p]), order[..p] + [index] + order[p..])
  {
    assert NodeOk(links, order, p);
    if p > 0 { assert NodeOk(links, order, p - 1); }
    var l, o := LinkedIn(links, index, order[p]), order[..p] + [index] + order[p..];
    forall i: nat ensures NodeOk(l, o, i) {
      if i < p { assert NodeOk(links, order, i); }
      else if i > p { assert NodeOk(links, order, i - 1); }
    }
  }

  /** The links after the neighbours of `index` were joined. */
  function LinkedOut(links: seq<Link>, index: nat): seq<Link>
    requires index < |links|
    requires links[index].prev == NONE || links[index].prev < |links|
    requires links[index].next == NONE || links[index].next < |links|
  {
    var l := links[index];
    var a := if l.prev == NONE then links else links[l.prev := links[l.prev].(next := l.next)];
    if l.next == NONE then a else a[l.next := a[l.next].(prev := l.prev)]
  }

  lemma {:induction false} LinkOutThreads(links: seq<Link>, order: seq<nat>, q: nat)
    requires Threaded(links, order) && q < |order|
    ensures order[q] < |links| && (q > 0 ==> order[q - 1] < |links|) && (q + 1 < |order| ==> order[q + 1] < |links|)
    ensures links[order[q]] == Link(Prev(order, q), Next(order, q))
    ensures Threaded(LinkedOut(links, order[q]), order[..q] + order[q + 1..])
  {
    assert NodeOk(links, order, q);
    if q > 0 { assert NodeOk(links, order, q - 1); }
    if q + 1 < |order| { assert NodeOk(links, order, q + 1); }
    var l, o := LinkedOut(links, order[q]), order[..q] + order[q + 1..];
    forall i: nat ensures NodeOk(l, o, i) {
      if i < q { assert NodeOk(links, order, i); } else { assert NodeOk(links, order, i + 1); }
    }
  }

  /** Linking before the hand appends to the sweep. */
  lemma {:induction false} LinkInSweep(order: seq<nat>, p: nat, index: nat)
    requires p < |order|
    ensures From(order[..p] + [index] + order[p..], p + 1) == From(order, p) + [index]
  {
    var o := order[..p] + [index] + order[p..];
    assert o[p + 1..] == order[p..] && o[..p + 1] == order[..p] + [index];
  }

  /** Where the hand is after the element at `q` left: it stays on its element, or moves to
      the one after it. */
  function HandAfter(order: seq<nat>, p: nat, q: nat): nat
    requires p < |order| && q < |order|
  {
    if q < p then p - 1 else if p + 1 == |order| && q == p then 0 else p
  }

  lemma {:induction false} LinkOutSweep(order: seq<nat>, p: nat, q: nat)
    requires Distinct(order) && p < |order| && q < |order|
    ensures From(order[..q] + order[q + 1..], HandAfter(order, p, q)) == Without(From(order, p), order[q])
  {
    var x, a, b := order[q], order[..p], order[p..];
    WithoutConcat(b, a, x);
    if q < p {
      WithoutAt(a, q);
      assert x !in b;
      WithoutAbsent(b, x);
      SplitBefore(order, p, q);
    } else {
      WithoutAt(b, q - p);
      assert x !in a;
      WithoutAbsent(a, x);
      SplitAfter(order, p, q);
    }
  }

  lemma {:induction false} SplitBefore(order: seq<nat>, p: nat, q: nat)
    requires q < p < |order|
    ensures From(order[..q] + order[q + 1..], p - 1) == order[p..] + (order[..p][..q] + order[..p][q + 1..])
  {
    var o := order[..q] + order[q + 1..];
    assert o[p - 1..] == order[p..] && o[..p - 1] == order[..p][..q] + order[..p][q + 1..];
  }

  lemma {:induction false} SplitAfter(order: seq<nat>, p: nat, q: nat)
    requires p <= q < |order|
    ensures From(order[..q] + order[q + 1..],
                 HandAfter(order, p, q)) == order[p..][..q - p] + order[p..][q - p + 1..] + order[..p]
  {
    var o := order[..q] + order[q + 1..];
    assert o[..p] == order[..p] && o[p..] == order[p..][..q - p] + order[p..][q - p + 1..];
  }

  /** The new head and hand are what the removed element's links say. */
  lemma {:induction false} LinkOutEnds(links: seq<Link>, order: seq<nat>, p: nat, q: nat)
    requires Threaded(links, order) && p < |order| && q < |order| && order[q] < |links|
    ensures var l, o := links[order[q]], order[..q] + order[q + 1..];
      var head := if l.prev != NONE then order[0] else l.next;
      && head == (if o == [] then NONE else o[0])
      && (o != [] ==> (if p == q then (if l.next != NONE then l.next else head)
        else order[p]) == o[HandAfter(order, p, q)])
      && (o == [] ==> p == q && l.next == NONE)
  {
    assert NodeOk(links, order, q);
    assert q > 0 ==> NodeOk(links, order, q - 1);
    assert q + 1 < |order| ==> NodeOk(links, order, q + 1);
  }

  lemma {:induction false} NonEmptyHand(links: seq<Link>, order: seq<nat>)
    requires Threaded(links, order)
    ensures NONE !in order
  {
    forall i | 0 <= i < |order| ensures order[i] != NONE { assert NodeOk(links, order, i); }
  }

  lemma {:induction false} LinkOut(links: seq<Link>, order: seq<nat>, p: nat, index: nat) returns (q: nat)
    requires Threaded(links, order) && p < |order| && index in From(order, p)
    ensures q < |order| && order[q] == index && index < |links| && index != NONE
    ensures var l, o := links[index], order[..q] + order[q + 1..];
      var head := if l.prev != NONE then order[0] else l.next;
      && (l.prev == NONE || l.prev < |links|) && (l.next == NONE || l.next < |links|)
      && Threaded(LinkedOut(links, index), o) && NONE !in o
      && head == (if o == [] then NONE else o[0])
      && (o != [] ==> (if p == q then (if l.next != NONE then l.next else head)
        else order[p]) == o[HandAfter(order, p, q)])
      && (o == [] ==> p == q && l.next == NONE)
      && From(o, HandAfter(order, p, q)) == Without(From(order, p), index) && index !in From(o, HandAfter(order, p, q))
  {
    FromMembers(order, p, index);
    q :| 0 <= q < |order| && order[q] == index;
    assert NodeOk(links, order, q);
    LinkOutThreads(links, order, q);
    LinkOutEnds(links, order, p, q);
    LinkOutSweep(order, p, q);
    NonEmptyHand(LinkedOut(links, index), order[..q] + order[q + 1..]);
    WithoutMembers(From(order, p), index, index);
  }

  lemma {:induction false} Unthreaded(links: seq<Link>, order: seq<nat>, index: nat, l: Link)
    requires Threaded(links, order) && index < |links| && index !in order
    ensures Threaded(links[index := l], order)
  {
    var k := links[index := l];
    forall i: nat ensures NodeOk(k, order, i) { assert NodeOk(links, order, i); }
  }

  lemma {:induction false} FromMembers(order: seq<nat>, p: nat, x: nat)
    requires p <= |order|
    ensures x in From(order, p) <==> x in order
  {
    assert order == order[..p] + order[p..];
  }

  class SweepRing {
    var links: seq<Link>
    var head: nat
    var hand: nat
    ghost var order: seq<nat>
    ghost var p: nat

    ghost predicate Valid() reads this {
      && Threaded(links, order)
      && (if order == [] then head == NONE && hand == NONE && p == 0
          else p < |order| && head == order[0] && hand == order[p])
    }

    /** The order in which the hand will visit the elements. */
    ghost function Sweep(): seq<nat>
      requires Valid()
      reads this
    {
      From(order, p)
    }

    constructor (n: nat)
      ensures Valid() && Sweep() == [] && |links| == n
    {
      links := seq(n, i => Link(NONE, NONE));
      head, hand, order, p := NONE, NONE, [], 0;
    }

    /** A new element goes behind the hand: it is visited last. */
    method LinkBeforeHand(index: nat)
      requires Valid() && index < |links| && index != NONE && index !in Sweep()
      requires hand == NONE ==> links[index] == Link(NONE, NONE)
      modifies this
      ensures Valid() && Sweep() == old(Sweep()) + [index]
      ensures |links| == |old(links)|
    {
      FromMembers(order, p, index);
      if hand == NONE {
        assert order != [] ==> NodeOk(links, order, p);
        head, hand := index, index;
        order := [index];
      } else {
        LinkInThreads(links, order, p, index);
        LinkInSweep(order, p, index);
        ghost var target := LinkedIn(links, index, hand);
        var before := links[hand].prev;
        links := links[index := Link(before, hand)];
        if before != NONE {
          links := links[before := links[before].(next := index)];
        } else {
          head := index;
        }
        links := links[hand := links[hand].(prev := index)];
        assert links == target;
        assert p > 0 ==> NodeOk(old(links), order, p - 1);
        order, p := order[..p] + [index] + order[p..], p + 1;
      }
    }

    /** Joins the neighbours of an element; the hand never rests on it afterwards. */
    method Detach(index: nat)
      requires Valid() && index in Sweep()
      modifies this
      ensures Valid() && Sweep() == Without(old(Sweep()), index)
      ensures |links| == |old(links)| && index < |links| && index != NONE && index !in Sweep()
      ensures |old(Sweep())| > 1 ==> hand != NONE
    {
      ghost var q := LinkOut(links, order, p, index);
      var l := links[index];
      ghost var o, r := order[..q] + order[q + 1..], LinkedOut(links, index);
      if l.prev != NONE {
        links := links[l.prev := links[l.prev].(next := l.next)];
      } else {
        head := l.next;
      }
      if l.next != NONE {
        links := links[l.next := links[l.next].(prev := l.prev)];
      }
      if hand == index {
        hand := if l.next != NONE then l.next else head;
      }
      order, p := o, if o == [] then 0 else HandAfter(order, p, q);
      assert links == r;
    }

    /** Takes an element out for good. */
    method Unlink(index: nat)
      requires Valid() && index in Sweep()
      modifies this
      ensures Valid() && Sweep() == Without(old(Sweep()), index)
      ensures |links| == |old(links)| && index < |links| && links[index] == Link(NONE, NONE)
    {
      Detach(index);
      FromMembers(order, p, index);
      Unthreaded(links, order, index, Link(NONE, NONE));
      links := links[index := Link(NONE, NONE)];
    }

    /** A read moves its element to the end of the sweep. An element that is there already,
        the one just before the hand, is left where it is. */
    method Touch(index: nat)
      requires Valid() && index in Sweep()
      modifies this
      ensures Valid() && Sweep() == Refreshed(old(Sweep()), index)
      ensures |links| == |old(links)|
    {
      FromMembers(order, p, index);
      ghost var q :| 0 <= q < |order| && order[q] == index;
      assert NodeOk(links, order, q);
      var behindHand := links[index].next == hand || (links[index].next == NONE && hand == head);
      BehindHand(links, order, p, q);
      if !behindHand {
        Detach(index);
        LinkBeforeHand(index);
      }
    }

    /** The hand moves to the next element, around the end. */
    method Advance()
      requires Valid() && hand != NONE
      modifies this
      ensures Valid() && Sweep() == Rotated(old(Sweep()))
      ensures links == old(links)
    {
      assert NodeOk(links, order, p);
      assert p + 1 < |order| ==> NodeOk(links, order, p + 1);
      hand := if links[hand].next != NONE then links[hand].next else head;
      RotateSweep(order, p);
      p := if p + 1 == |order| then 0 else p + 1;
    }
  }

  lemma {:induction false} RotateSweep(order: seq<nat>, p: nat)
    requires p < |order|
    ensures From(order, if p + 1 == |order| then 0 else p + 1) == Rotated(From(order, p))
  {
    var s := From(order, p);
    assert s[0] == order[p] && s[1..] == order[p + 1..] + order[..p];
    assert order[..p + 1] == order[..p] + [order[p]];
    if p + 1 == |order| { assert order[..p + 1] == order; }
  }

  /** The element before the hand is the last of the sweep, and the only one for which the
      shortcut applies. */
  lemma {:induction false} BehindHand(links: seq<Link>, order: seq<nat>, p: nat, q: nat)
    requires Threaded(links, order) && p < |order| && q < |order| && order[q] < |links|
    ensures var l, s := links[order[q]], From(order, p);
      if l.next == order[p] || (l.next == NONE && order[p] == order[0])
      then s == Refreshed(s, order[q])
      else |order| > 1
  {
    assert NodeOk(links, order, q);
    assert NodeOk(links, order, p);
    assert q + 1 < |order| ==> NodeOk(links, order, q + 1);
    var l, s := links[order[q]], From(order, p);
    if l.next == order[p] || (l.next == NONE && order[p] == order[0]) {
      assert s[|s| - 1] == order[q];
      LastIsRefreshed(order, p);
    }
  }

  lemma {:induction false} LastIsRefreshed(order: seq<nat>, p: nat)
    requires Distinct(order) && p < |order|
    ensures var s := From(order, p); s == Refreshed(s, s[|s| - 1])
  {
    var s := From(order, p);
    var n := |s| - 1;
    assert Distinct(s);
    WithoutAt(s, n);
    assert s[n + 1..] == [] && s[..n] + [] == s[..n];
    assert s == s[..n] + [s[n]];
  }
}
