/** The free slots of one size class: a list per bound extent and a rotation over the
    extents that have any, so that consecutive allocations land on different extents. */
module FreeLists {
  import opened Sums
  import opened SweepOrder

  datatype FreeLists = FreeLists(lists: map<nat, seq<nat>>, rr: seq<nat>, next: nat, count: int)

  function Length(): seq<nat> -> int {
    (s: seq<nat>) => |s|
  }

  predicate ExtentListed(f: FreeLists, e: nat) {
    && (e in f.rr <==> e in f.lists && f.lists[e] != [])
    && (e in f.lists ==> Distinct(f.lists[e]))
  }

  /** The rotation holds exactly the extents with a free slot, once each, no slot is listed
      twice, and the counter counts the listed slots. */
  ghost predicate Good(f: FreeLists) {
    && Distinct(f.rr)
    && (forall e :: ExtentListed(f, e))
    && f.count == Sum(f.lists, Length())
  }

  function Of(f: FreeLists, e: nat): seq<nat> {
    if e in f.lists then f.lists[e] else []
  }

  // ------------------------------------------------------------ sequence surgery

  /** Position of the first `x`, or the length. */
  function IndexOf(s: seq<nat>, x: nat): (i: nat)
    ensures i <= |s|
    ensures i < |s| ==> s[i] == x
    ensures i == |s| <==> x !in s
  {
    if s == [] then 0 else if s[0] == x then 0 else 1 + IndexOf(s[1..], x)
  }

  /** The element at `i` is replaced by the last, which is then dropped. */
  function SwapOut(s: seq<nat>, i: nat): seq<nat>
    requires i < |s|
  {
    s[i := s[|s| - 1]][..|s| - 1]
  }

  lemma {:induction false} SwapOutFacts(s: seq<nat>, i: nat)
    requires i < |s| && Distinct(s)
    ensures Distinct(SwapOut(s, i))
    ensures forall x :: x in SwapOut(s, i) <==> x in s && x != s[i]
  {
    var n := |s| - 1;
    var t := SwapOut(s, i);
    forall x ensures x in t <==> x in s && x != s[i] {
      if x in s && x != s[i] {
        var j :| 0 <= j < |s| && s[j] == x;
        if j < n { assert t[j] == x; } else { assert t[i] == x; }
      }
    }
  }

  // ------------------------------------------------------------ operations

  function Push(f: FreeLists, e: nat, s: nat): FreeLists {
    FreeLists(f.lists[e := Of(f, e) + [s]], if Of(f, e) == [] then f.rr + [e] else f.rr, f.next, f.count + 1)
  }

  /** Which extent a pop takes from. */
  function Turn(f: FreeLists): nat
    requires f.rr != []
  {
    if f.next >= |f.rr| then 0 else f.next
  }

  /** The last slot of the extent whose turn it is. An emptied extent leaves the rotation. */
  function Pop(f: FreeLists): FreeLists
    requires f.rr != [] && Of(f, f.rr[Turn(f)]) != []
  {
    var i := Turn(f);
    var e := f.rr[i];
    var rest := Of(f, e)[..|Of(f, e)| - 1];
    FreeLists(f.lists[e := rest], if rest == [] then SwapOut(f.rr, i) else f.rr,
              if rest == [] then i else i + 1, f.count - 1)
  }

  function DropFromRotation(f: FreeLists, e: nat): FreeLists {
    var i := IndexOf(f.rr, e);
    if i == |f.rr| then f
    else
      var rr := SwapOut(f.rr, i);
      var next := if f.next > i then f.next - 1 else f.next;
      f.(rr := rr, next := if next >= |rr| && rr != [] then 0 else next)
  }

  /** Takes one given slot; a restore knows where its values are. */
  function Take(f: FreeLists, e: nat, s: nat): FreeLists
    requires s in Of(f, e)
  {
    var rest := SwapOut(Of(f, e), IndexOf(Of(f, e), s));
    var g := f.(lists := f.lists[e := rest], count := f.count - 1);
    if rest == [] then DropFromRotation(g, e) else g
  }

  function DropExtent(f: FreeLists, e: nat): FreeLists {
    if e !in f.lists then f
    else DropFromRotation(f.(lists := f.lists - {e}, count := f.count - |f.lists[e]|), e)
  }

  // ------------------------------------------------------------ what they do

  /** `g` is `f` but for the free slots of extent `e`, and counts right. */
  ghost predicate Relisted(f: FreeLists, g: FreeLists, e: nat) {
    && Good(g)
    && g.lists - {e} == f.lists - {e}
    && g.count - f.count == |Of(g, e)| - |Of(f, e)|
  }

  lemma {:induction false} CountMoves(f: FreeLists, g: FreeLists, e: nat)
    requires f.count == Sum(f.lists, Length()) && g.lists - {e} == f.lists - {e}
    requires g.count - f.count == |Of(g, e)| - |Of(f, e)|
    ensures g.count == Sum(g.lists, Length())
  {
    if e in f.lists { SumRemove(f.lists, e, Length()); } else { assert f.lists - {e} == f.lists; }
    if e in g.lists { SumRemove(g.lists, e, Length()); } else { assert g.lists - {e} == g.lists; }
  }

  lemma {:induction false} PushFacts(f: FreeLists, e: nat, s: nat)
    requires Good(f) && s !in Of(f, e)
    ensures Relisted(f, Push(f, e, s), e) && Of(Push(f, e, s), e) == Of(f, e) + [s] && e in Push(f, e, s).lists
  {
    var g := Push(f, e, s);
    assert ExtentListed(f, e);
    forall x ensures ExtentListed(g, x) { assert ExtentListed(f, x); }
    assert g.lists - {e} == f.lists - {e};
    CountMoves(f, g, e);
  }

  lemma {:induction false} DropFacts(f: FreeLists, e: nat)
    requires Distinct(f.rr)
    ensures var g := DropFromRotation(f, e);
      Distinct(g.rr) && g.lists == f.lists && g.count == f.count && forall x :: x in g.rr <==> x in f.rr && x != e
  {
    var i := IndexOf(f.rr, e);
    if i < |f.rr| { SwapOutFacts(f.rr, i); }
  }

  /** A pop takes a slot that was free, from the extent whose turn it is, and only that. */
  lemma {:induction false} PopFacts(f: FreeLists)
    requires Good(f) && f.rr != []
    ensures Of(f, f.rr[Turn(f)]) != [] && f.rr[Turn(f)] in f.lists
    ensures var e := f.rr[Turn(f)];
      && Relisted(f, Pop(f), e) && e in Pop(f).lists
      && Of(f, e) == Of(Pop(f), e) + [Of(f, e)[|Of(f, e)| - 1]]
  {
    var i := Turn(f);
    var e := f.rr[i];
    assert ExtentListed(f, e);
    var g := Pop(f);
    SwapOutFacts(f.rr, i);
    forall x ensures ExtentListed(g, x) { assert ExtentListed(f, x); }
    assert g.lists - {e} == f.lists - {e};
    CountMoves(f, g, e);
  }

  lemma {:induction false} TakeFacts(f: FreeLists, e: nat, s: nat)
    requires Good(f) && s in Of(f, e)
    ensures Relisted(f, Take(f, e, s), e) && e in Take(f, e, s).lists && |Of(Take(f, e, s), e)| == |Of(f, e)| - 1
    ensures forall x :: x in Of(Take(f, e, s), e) <==> x in Of(f, e) && x != s
  {
    var i := IndexOf(Of(f, e), s);
    var rest := SwapOut(Of(f, e), i);
    var g := f.(lists := f.lists[e := rest], count := f.count - 1);
    assert ExtentListed(f, e);
    SwapOutFacts(Of(f, e), i);
    DropFacts(g, e);
    var h := Take(f, e, s);
    forall x ensures ExtentListed(h, x) { assert ExtentListed(f, x); }
    assert h.lists - {e} == f.lists - {e};
    CountMoves(f, h, e);
  }

  lemma {:induction false} DropExtentFacts(f: FreeLists, e: nat)
    requires Good(f)
    ensures Relisted(f, DropExtent(f, e), e) && e !in DropExtent(f, e).lists
  {
    var h := DropExtent(f, e);
    if e in f.lists {
      DropFacts(f.(lists := f.lists - {e}, count := f.count - |f.lists[e]|), e);
    }
    forall x ensures ExtentListed(h, x) { assert ExtentListed(f, x); }
    assert h.lists - {e} == f.lists - {e};
    CountMoves(f, h, e);
  }

  // ------------------------------------------------------------ in-place forms

  /** The search loop of a rotation drop. */
  method DropRotation(rr: seq<nat>, next: nat, e: nat) returns (rr1: seq<nat>, next1: nat)
    ensures var g := DropFromRotation(FreeLists(map[], rr, next, 0), e); rr1 == g.rr && next1 == g.next
  {
    rr1, next1 := rr, next;
    var i := 0;
    while i < |rr|
      invariant i <= |rr| && e !in rr[..i] && rr1 == rr && next1 == next
      invariant IndexOf(rr, e) == i + IndexOf(rr[i..], e)
    {
      if rr[i] != e {
        assert rr[i..][1..] == rr[i + 1..];
        i := i + 1;
        continue;
      }
      rr1 := rr1[i := rr1[|rr1| - 1]][..|rr1| - 1];
      if next1 > i { next1 := next1 - 1; }
      if next1 >= |rr1| && rr1 != [] { next1 := 0; }
      return;
    }
  }

  /** Lists every slot of a newly bound extent. */
  method Carve(f: FreeLists, e: nat, n: nat) returns (g: FreeLists)
    requires Good(f) && e !in f.lists && n > 0
    ensures Relisted(f, g, e) && e in g.lists
    ensures |Of(g, e)| == n && forall s: nat :: s in Of(g, e) <==> s < n
    ensures g.rr == f.rr + [e] && forall s :: 0 <= s < n ==> Of(g, e)[s] == s
  {
    g := f;
    for i := 0 to n
      invariant Relisted(f, g, e) && |Of(g, e)| == i && (i > 0 ==> e in g.lists)
      invariant forall s: nat :: s in Of(g, e) <==> s < i
      invariant g.rr == (if i == 0 then f.rr else f.rr + [e]) && forall s :: 0 <= s < i ==> Of(g, e)[s] == s
    {
      PushFacts(g, e, i);
      g := Push(g, e, i);
    }
    assert ExtentListed(g, e);
  }

  // ------------------------------------------------------------ striping

  /** The extents of up to `n` consecutive allocations. */
  function Popped(f: FreeLists, n: nat): seq<nat>
    decreases n
  {
    if n == 0 || f.rr == [] || Of(f, f.rr[Turn(f)]) == [] then []
    else [f.rr[Turn(f)]] + Popped(Pop(f), n - 1)
  }

  /** `i` places after the one whose turn it is. */
  function Ahead(f: FreeLists, i: nat): (j: nat)
    requires i < |f.rr|
    ensures j < |f.rr|
  {
    if Turn(f) + i < |f.rr| then Turn(f) + i else Turn(f) + i - |f.rr|
  }

  /** While no extent runs out, allocations go around the rotation in order. */
  lemma {:induction false} PopsInTurn(f: FreeLists, n: nat)
    requires n <= |f.rr| && Distinct(f.rr)
    requires forall i :: 0 <= i < n ==> |Of(f, f.rr[Ahead(f, i)])| > 1
    ensures |Popped(f, n)| == n
    ensures forall i :: 0 <= i < n ==> Popped(f, n)[i] == f.rr[Ahead(f, i)]
    decreases n
  {
    if n > 0 {
      assert Ahead(f, 0) == Turn(f);
      var g := Pop(f);
      forall i | 0 <= i < n - 1 ensures Ahead(g, i) == Ahead(f, i + 1) && |Of(g, g.rr[Ahead(g, i)])| > 1 {
        assert Ahead(f, i + 1) != Turn(f);
        assert |Of(f, f.rr[Ahead(f, i + 1)])| > 1;
      }
      PopsInTurn(g, n - 1);
      forall i | 0 <= i < n ensures Popped(f, n)[i] == f.rr[Ahead(f, i)] {
        if i > 0 { assert Popped(f, n)[i] == Popped(g, n - 1)[i - 1]; }
      }
    }
  }

  /** So consecutive allocations, up to one lap, land on different extents. */
  lemma {:induction false} Striped(f: FreeLists, n: nat, i: nat, j: nat)
    requires n <= |f.rr| && Distinct(f.rr) && i < j < n
    requires forall e :: e in f.rr ==> |Of(f, e)| > 1
    ensures |Popped(f, n)| == n && Popped(f, n)[i] != Popped(f, n)[j]
  {
    PopsInTurn(f, n);
    assert Ahead(f, i) != Ahead(f, j);
  }
}
