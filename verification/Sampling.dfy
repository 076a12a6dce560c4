/**
 Sampling without replacement. Each draw is a number among those that remain;
 a pass over the sorted list of earlier picks turns it into the pick itself.
 The random draws are a parameter.

 The main results: a draw becomes the number of that rank among the free ones,
 draw sequences correspond one to one with sequences of distinct picks, and
 every subset of the requested size comes from the same number of draw
 sequences, so uniform draws give a uniform subset.
 */
module Sampling {
  import opened Sets

  /** The numbers from 0 up to `n`, not included. */
  function Range(n: int): (r: set<int>)
    ensures forall x :: x in r <==> 0 <= x < n
    ensures |r| == if n < 0 then 0 else n
    decreases if n < 0 then 0 else n
  {
    if n <= 0 then {} else Range(n - 1) + {n - 1}
  }

  /** The numbers below `w` that are not taken. */
  function FreeBelow(taken: set<int>, w: int): set<int> {
    Range(w) - taken
  }

  /** `w` is free and exactly `v` free numbers come before it. */
  predicate IsNthFree(taken: set<int>, v: int, w: int) {
    w >= 0 && w !in taken && |FreeBelow(taken, w)| == v
  }

  /** A draw among what remains in [0, size) stays below `size`. */
  lemma NthFreeInRange(taken: set<int>, v: int, w: int, size: int)
    requires IsNthFree(taken, v, w) && taken <= Range(size) && v < size - |taken|
    ensures w < size
  {
    if w >= size {
      DifferenceSize(Range(size), taken);
      SubsetSize(FreeBelow(taken, size), FreeBelow(taken, w));
    }
  }

  /** The rank of a free number in [0, size) is among what remains. */
  lemma RankInRange(taken: set<int>, w: int, size: int)
    requires 0 <= w < size && w !in taken && taken <= Range(size)
    ensures 0 <= |FreeBelow(taken, w)| < size - |taken|
  {
    DifferenceSize(Range(size), taken);
    SubsetSize(FreeBelow(taken, w) + {w}, FreeBelow(taken, size));
  }

  lemma NthFreeIsUnique(taken: set<int>, v: int, w: int, w': int)
    requires IsNthFree(taken, v, w) && IsNthFree(taken, v, w')
    ensures w == w'
  {
    if w < w' {
      SubsetSize(FreeBelow(taken, w) + {w}, FreeBelow(taken, w'));
    } else if w' < w {
      SubsetSize(FreeBelow(taken, w') + {w'}, FreeBelow(taken, w));
    }
  }

  // ---------------------------------------------------------------------
  // Sequences of draws and sequences of picks, the latest first.

  datatype List = Nil | Cons(last: int, earlier: List)

  function Length(l: List): nat {
    if l.Nil? then 0 else 1 + Length(l.earlier)
  }

  function Elements(l: List): set<int> {
    if l.Nil? then {} else Elements(l.earlier) + {l.last}
  }

  predicate Distinct(l: List) {
    l.Nil? || (l.last !in Elements(l.earlier) && Distinct(l.earlier))
  }

  /** Draw number k is among the `size - k` numbers that remain. */
  predicate ValidDraws(draws: List, size: int) {
    draws.Nil? || (0 <= draws.last < size - Length(draws.earlier) && ValidDraws(draws.earlier, size))
  }

  /** In turn, each draw selects the number of that rank among those still free. */
  predicate Selects(draws: List, picks: List) {
    match (draws, picks)
    case (Nil, Nil) => true
    case (Cons(v, vs), Cons(w, ws)) => IsNthFree(Elements(ws), v, w) && Selects(vs, ws)
    case _ => false
  }

  /** The rank of each pick among the numbers free at its turn. */
  function Ranks(picks: List): List {
    if picks.Nil? then Nil
    else Cons(|FreeBelow(Elements(picks.earlier), picks.last)|, Ranks(picks.earlier))
  }

  lemma {:induction false} DistinctSize(l: List)
    requires Distinct(l)
    ensures |Elements(l)| == Length(l)
  {
    if l.Cons? {
      DistinctSize(l.earlier);
    }
  }

  /** Draws select distinct numbers of [0, size), and the ranks of these are the draws. */
  lemma {:induction false} SelectsDistinct(draws: List, picks: List, size: int)
    requires Selects(draws, picks) && ValidDraws(draws, size)
    ensures Distinct(picks) && Elements(picks) <= Range(size) && Ranks(picks) == draws
    ensures Length(picks) == Length(draws)
    decreases picks
  {
    if picks.Cons? {
      SelectsDistinct(draws.earlier, picks.earlier, size);
      DistinctSize(picks.earlier);
      NthFreeInRange(Elements(picks.earlier), draws.last, picks.last, size);
    }
  }

  /** Any distinct numbers of [0, size) are selected, by their ranks. */
  lemma {:induction false} DistinctIsSelected(picks: List, size: int)
    requires Distinct(picks) && Elements(picks) <= Range(size)
    ensures ValidDraws(Ranks(picks), size) && Selects(Ranks(picks), picks)
    ensures Length(Ranks(picks)) == Length(picks)
  {
    if picks.Cons? {
      DistinctIsSelected(picks.earlier, size);
      DistinctSize(picks.earlier);
      RankInRange(Elements(picks.earlier), picks.last, size);
    }
  }

  /** The same draws select the same picks. */
  lemma {:induction false} SelectionIsUnique(draws: List, picks: List, picks': List)
    requires Selects(draws, picks) && Selects(draws, picks')
    ensures picks == picks'
    decreases picks
  {
    if picks.Cons? {
      SelectionIsUnique(draws.earlier, picks.earlier, picks'.earlier);
      NthFreeIsUnique(Elements(picks.earlier), draws.last, picks.last, picks'.last);
    }
  }

  // ---------------------------------------------------------------------
  // How many sequences of draws lead to a given subset.

  function Factorial(n: nat): nat {
    if n == 0 then 1 else n * Factorial(n - 1)
  }

  /** The orders in which the members of `s` can be picked. */
  ghost function Orders(s: set<int>): set<List>
    decreases |s|, 1
  {
    if s == {} then {Nil} else OrdersEnding(s, s)
  }

  /** Those of them whose latest pick is in `last`. */
  ghost function OrdersEnding(s: set<int>, last: set<int>): set<List>
    requires last <= s
    decreases |s|, 0
  {
    set x, p | x in last && p in Orders(s - {x}) :: Cons(x, p)
  }

  lemma {:induction false} OrdersAreDistinct(s: set<int>, p: List)
    ensures p in Orders(s) <==> Distinct(p) && Elements(p) == s
    decreases p
  {
    if p.Cons? {
      if s != {} && p.last in s {
        OrdersAreDistinct(s - {p.last}, p.earlier);
        assert Distinct(p) && Elements(p) == s ==> Elements(p.earlier) == s - {p.last};
      }
    }
  }

  ghost function WithLast(ps: set<List>, x: int): set<List> {
    set p | p in ps :: Cons(x, p)
  }

  lemma {:induction false} WithLastSize(ps: set<List>, x: int)
    ensures |WithLast(ps, x)| == |ps|
    decreases |ps|
  {
    if |ps| > 0 {
      var q := Member(ps);
      WithLastSize(ps - {q}, x);
      assert WithLast(ps, x) == WithLast(ps - {q}, x) + {Cons(x, q)};
    }
  }

  lemma NoOrdersEnding(s: set<int>)
    ensures |OrdersEnding(s, {})| == 0
  {
    assert OrdersEnding(s, {}) == {};
  }

  lemma OrdersEndingSplit(s: set<int>, last: set<int>, x: int)
    requires x in last && last <= s
    ensures |s - {x}| == |s| - 1 && |last - {x}| == |last| - 1
    ensures |OrdersEnding(s, last)| == |OrdersEnding(s, last - {x})| + |Orders(s - {x})|
  {
    var others, ending := OrdersEnding(s, last - {x}), WithLast(Orders(s - {x}), x);
    assert OrdersEnding(s, last) == others + ending;
    assert others !! ending;
    WithLastSize(Orders(s - {x}), x);
  }

  /** `n` times `f`, as repeated addition. */
  function Times(n: nat, f: nat): nat {
    if n == 0 then 0 else Times(n - 1, f) + f
  }

  lemma {:induction false} TimesIsProduct(n: nat, f: nat)
    ensures Times(n, f) == n * f
  {
    if n > 0 {
      TimesIsProduct(n - 1, f);
      assert n * f == (n - 1) * f + f;
    }
  }

  lemma {:induction false} OrdersEndingSize(s: set<int>, last: set<int>)
    requires last <= s && s != {}
    ensures |OrdersEnding(s, last)| == Times(|last|, Factorial(|s| - 1))
    decreases |s|, 0, |last|
  {
    if |last| == 0 {
      assert last == {};
      NoOrdersEnding(s);
    } else {
      var x := Member(last);
      OrdersEndingSplit(s, last, x);
      OrdersEndingSize(s, last - {x});
      OrdersSize(s - {x});
    }
  }

  lemma {:induction false} OrdersSize(s: set<int>)
    ensures |Orders(s)| == Factorial(|s|)
    decreases |s|, 1
  {
    if s != {} {
      OrdersEndingSize(s, s);
      TimesIsProduct(|s|, Factorial(|s| - 1));
    }
  }

  /** The sequences of draws that lead to picking exactly `s`. */
  ghost function DrawsLeadingTo(s: set<int>): set<List> {
    AllRanks(Orders(s))
  }

  ghost function AllRanks(ps: set<List>): set<List> {
    set p | p in ps :: Ranks(p)
  }

  lemma DrawsLeadingToExactly(s: set<int>, size: int, draws: List)
    requires s <= Range(size)
    ensures draws in DrawsLeadingTo(s) <==>
              ValidDraws(draws, size) && exists picks :: Selects(draws, picks) && Elements(picks) == s
  {
    if draws in DrawsLeadingTo(s) {
      var p :| p in Orders(s) && draws == Ranks(p);
      OrdersAreDistinct(s, p);
      DistinctIsSelected(p, size);
    } else if ValidDraws(draws, size) {
      forall picks | Selects(draws, picks) ensures Elements(picks) != s {
        SelectsDistinct(draws, picks, size);
        OrdersAreDistinct(s, picks);
      }
    }
  }

  lemma RanksAreInjective(s: set<int>, size: int, p: List, q: List)
    requires s <= Range(size) && p in Orders(s) && q in Orders(s) && Ranks(p) == Ranks(q)
    ensures p == q
  {
    OrdersAreDistinct(s, p);
    OrdersAreDistinct(s, q);
    DistinctIsSelected(p, size);
    DistinctIsSelected(q, size);
    SelectionIsUnique(Ranks(p), p, q);
  }

  lemma {:induction false} AllRanksSize(s: set<int>, size: int, ps: set<List>)
    requires s <= Range(size) && ps <= Orders(s)
    ensures |AllRanks(ps)| == |ps|
    decreases |ps|
  {
    if |ps| > 0 {
      var q := Member(ps);
      AllRanksSize(s, size, ps - {q});
      assert Ranks(q) !in AllRanks(ps - {q}) by {
        forall p | p in ps - {q} ensures Ranks(p) != Ranks(q) {
          if Ranks(p) == Ranks(q) {
            RanksAreInjective(s, size, p, q);
          }
        }
      }
      assert AllRanks(ps) == AllRanks(ps - {q}) + {Ranks(q)};
    }
  }

  /** Every subset of the same size comes from the same number of draw sequences. */
  lemma SamplingIsUniform(s: set<int>, size: int)
    requires s <= Range(size)
    ensures |DrawsLeadingTo(s)| == Factorial(|s|)
  {
    OrdersSize(s);
    AllRanksSize(s, size, Orders(s));
  }

  // ---------------------------------------------------------------------
  // The loops.

  predicate Increasing(s: seq<int>) {
    forall i, j :: 0 <= i < j < |s| ==> s[i] < s[j]
  }

  function Members(s: seq<int>): set<int> {
    set x | x in s
  }

  /** `w` is past exactly the first `c` of `picks` and short of the others up to `i`. */
  predicate Splits(picks: seq<int>, i: int, c: int, w: int) {
    && 0 <= c <= i <= |picks|
    && (forall j :: 0 <= j < c ==> picks[j] < w)
    && (forall j :: c <= j < i ==> w < picks[j])
  }

  lemma {:induction false} IncreasingSize(s: seq<int>)
    requires Increasing(s)
    ensures |Members(s)| == |s|
  {
    if s != [] {
      var init, last := s[..|s| - 1], s[|s| - 1];
      IncreasingSize(init);
      assert s == init + [last];
      assert Members(s) == Members(init) + {last};
    }
  }

  lemma SplitsIsNthFree(picks: seq<int>, c: int, w: int, size: int)
    requires Increasing(picks) && Members(picks) <= Range(size) && w >= c && Splits(picks, |picks|, c, w)
    ensures IsNthFree(Members(picks), w - c, w)
  {
    var before := Members(picks[..c]);
    IncreasingSize(picks[..c]);
    forall j | 0 <= j < |picks| ensures picks[j] in Members(picks) && (picks[j] in before <==> j < c) {
      if j < c {
        assert picks[..c][j] == picks[j];
      }
    }
    assert before <= Range(w);
    DifferenceSize(Range(w), before);
    assert FreeBelow(Members(picks), w) == Range(w) - before;
  }

  /** The pass over the earlier picks: draw `v` becomes the free number of rank `v`. */
  method Skip(picks: seq<int>, v: int, ghost size: int) returns (w: int)
    requires Increasing(picks) && Members(picks) <= Range(size) && v >= 0
    ensures IsNthFree(Members(picks), v, w)
  {
    w := v;
    ghost var c := 0;
    for i := 0 to |picks|
      invariant w == v + c && Splits(picks, i, c, w)
    {
      assert c < i ==> picks[c] < picks[i];
      if w >= picks[i] {
        w := w + 1;
        c := c + 1;
      }
    }
    SplitsIsNthFree(picks, c, w, size);
  }

  lemma MembersCons(x: int, s: seq<int>)
    ensures Members([x] + s) == {x} + Members(s)
  {
  }

  lemma IncreasingCons(x: int, s: seq<int>)
    requires Increasing(s) && forall y :: y in Members(s) ==> x < y
    ensures Increasing([x] + s)
  {
    assert forall i :: 0 <= i < |s| ==> s[i] in Members(s);
  }

  /** `x` in its place in the increasing list `s`. */
  function Insert(s: seq<int>, x: int): (r: seq<int>)
    requires Increasing(s) && x !in Members(s)
    ensures Increasing(r) && |r| == |s| + 1 && Members(r) == Members(s) + {x}
  {
    if s == [] || x < s[0] then
      MembersCons(x, s);
      [x] + s
    else
      assert s == [s[0]] + s[1..];
      MembersCons(s[0], s[1..]);
      var r := Insert(s[1..], x);
      MembersCons(s[0], r);
      IncreasingCons(s[0], r);
      [s[0]] + r
  }

  /** The first `k` draws, the latest first. */
  function Drawn(draws: seq<int>, k: nat): List
    requires k <= |draws|
  {
    if k == 0 then Nil else Cons(draws[k - 1], Drawn(draws, k - 1))
  }

  lemma {:induction false} ValidDraw(draws: seq<int>, k: nat, n: nat, size: int)
    requires k < n <= |draws| && ValidDraws(Drawn(draws, n), size)
    ensures 0 <= draws[k] < size - k
    decreases n
  {
    DrawnLength(draws, n - 1);
    if k < n - 1 {
      ValidDraw(draws, k, n - 1, size);
    }
  }

  lemma {:induction false} DrawnLength(draws: seq<int>, k: nat)
    requires k <= |draws|
    ensures Length(Drawn(draws, k)) == k
  {
    if k > 0 {
      DrawnLength(draws, k - 1);
    }
  }

  /** `res` lists in order what the draws selected. */
  predicate PickedSoFar(res: seq<int>, size: int, draws: List, picks: List) {
    && Increasing(res) && Members(res) <= Range(size) && |Members(res)| == |res|
    && Members(res) == Elements(picks) && Selects(draws, picks)
  }

  lemma PickedOneMore(res: seq<int>, size: int, draws: List, picks: List, v: int, w: int)
    requires PickedSoFar(res, size, draws, picks) && v < size - |res| && IsNthFree(Members(res), v, w)
    ensures w !in Members(res) && PickedSoFar(Insert(res, w), size, Cons(v, draws), Cons(w, picks))
  {
    NthFreeInRange(Members(res), v, w, size);
  }

  /** The picks of the draws, in increasing order. */
  method PickSome(count: int, size: int, draws: seq<int>) returns (res: seq<int>, ghost picks: List)
    requires 0 <= count < size && |draws| == count && ValidDraws(Drawn(draws, count), size)
    ensures |res| == count && PickedSoFar(res, size, Drawn(draws, count), picks)
  {
    res, picks := [], Nil;
    while |res| < count
      invariant |res| <= count && PickedSoFar(res, size, Drawn(draws, |res|), picks)
    {
      var k := |res|;
      ValidDraw(draws, k, count, size);
      var v := Skip(res, draws[k], size);
      PickedOneMore(res, size, Drawn(draws, k), picks, draws[k], v);
      res := Insert(res, v);
      picks := Cons(v, picks);
    }
  }

  function Iota(n: nat): (r: seq<int>)
    ensures |r| == n && forall i :: 0 <= i < n ==> r[i] == i
  {
    if n == 0 then [] else Iota(n - 1) + [n - 1]
  }

  lemma IotaIsRange(n: nat)
    ensures Increasing(Iota(n)) && Members(Iota(n)) == Range(n)
  {
    forall x | x in Range(n) ensures x in Members(Iota(n)) {
      assert Iota(n)[x] == x;
    }
  }

  /**
   An increasing list of `count` numbers of [0, size): those that the draws
   select, or all of them when `count` is `size`.
   */
  method PickN(count: int, size: int, draws: seq<int>) returns (res: seq<int>, ghost picks: List)
    requires 0 <= count <= size
    requires count < size ==> |draws| == count && ValidDraws(Drawn(draws, count), size)
    ensures Increasing(res) && |res| == count && Members(res) <= Range(size)
    ensures count < size ==> Selects(Drawn(draws, count), picks) && Members(res) == Elements(picks)
    ensures count == size ==> Members(res) == Range(size)
  {
    if count < size {
      res, picks := PickSome(count, size, draws);
    } else {
      res, picks := Iota(size), Nil;
      IotaIsRange(size);
    }
  }
}
