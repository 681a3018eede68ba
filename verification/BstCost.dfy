/** The cost model of _compile_entries_bst in tools/compiler.py and the optimality of
    its dynamic program. */
module BstCost {
  import opened Bits
  import opened Machine
  import opened Sorting
  import opened Ranges
  import opened RangeTests

  /** `rs[i..j]` are exactly the ranges within the bounds. */
  ghost predicate Matches(rs: seq<Range>, i: nat, j: nat, b0: nat, b1: nat) {
    && i < j <= |rs|
    && b0 <= rs[i].lo && rs[j - 1].hi <= b1
    && (i > 0 ==> rs[i - 1].hi <= b0)
    && (j < |rs| ==> b1 <= rs[j].lo)
  }

  /** The bounds alone identify the subproblem, which is why they suffice as memo key. */
  lemma MatchesUnique(rs: seq<Range>, i: nat, j: nat, k: nat, l: nat, b0: nat, b1: nat)
    requires Ordered(rs) && Matches(rs, i, j, b0, b1) && Matches(rs, k, l, b0, b1)
    ensures i == k && j == l
  {
  }

  // ----- The recurrence -----

  /** The cost the dynamic program assigns to the ranges `rs[i..j]` within bounds `[b0, b1)`. */
  ghost function Opt(rs: seq<Range>, i: nat, j: nat, b0: nat, b1: nat): nat
    requires i < j <= |rs|
    decreases j - i, 3
  {
    if j - i == 1 then
      if b0 == rs[i].lo && b1 == rs[i].hi then 0
      else SingleCost(rs[i], 0, None) * rs[i].frequency
    else TryFrom(rs, i, j, b0, b1, i, LinearCost(rs[i..j]))
  }

  /** The best of `best` and all splits in front of ranges `m`, `m + 1`, ... */
  ghost function TryFrom(rs: seq<Range>, i: nat, j: nat, b0: nat, b1: nat, m: nat, best: nat): nat
    requires i <= m <= j <= |rs| && i < j
    decreases j - i, 2, j - m
  {
    if m == j then best
    else TryFrom(rs, i, j, b0, b1, m + 1, TryCuts(rs, i, j, b0, b1, m, Cuts(rs, i, m), best))
  }

  /** Where a split in front of range `m` may be placed: at its start or at the end of the one before. */
  function Cuts(rs: seq<Range>, i: nat, m: nat): seq<nat>
    requires i <= m < |rs|
  {
    [rs[m].lo] + if m > i then [rs[m - 1].hi] else []
  }

  ghost function TryCuts(rs: seq<Range>, i: nat, j: nat, b0: nat, b1: nat, m: nat, cuts: seq<nat>, best: nat): nat
    requires i <= m < j <= |rs|
    decreases j - i, 1, |cuts|
  {
    if cuts == [] then best
    else TryCuts(rs, i, j, b0, b1, m, cuts[1..], TryCut(rs, i, j, b0, b1, m, cuts[0], best))
  }

  ghost function TryCut(rs: seq<Range>, i: nat, j: nat, b0: nat, b1: nat, m: nat, cut: nat, best: nat): nat
    requires i <= m < j <= |rs|
    decreases j - i, 0
  {
    if b0 < cut < b1 && i < m then Min(best, SplitCost(rs, i, j, b0, b1, m, cut)) else best
  }

  ghost function SplitCost(rs: seq<Range>, i: nat, j: nat, b0: nat, b1: nat, m: nat, cut: nat): nat
    requires i < m < j <= |rs|
    decreases j - i, 0, 0
  {
    Frequency(rs[i..j]) + Opt(rs, i, m, b0, cut) + Opt(rs, m, j, cut, b1)
  }

  // ----- All decision trees -----

  datatype Tree =
    | Tight                                            // the bounds enclose one range exactly: no test
    | Single                                           // the test for one range
    | Chain(order: seq<Range>)                         // a linear chain of tests, the last range first
    | Split(m: nat, cut: nat, left: Tree, right: Tree) // one JGE test at `cut` between two ranges
    | Edge(cut: nat, above: bool, inner: Tree)         // one JGE test with all ranges on one side of `cut`

  /** Trees that decide the ranges `rs[i..j]` within bounds `[b0, b1)`.  A split may be placed
      anywhere in the gap between two ranges, a chain may be in any order, and the space before the
      first or behind the last range may be cut off. */
  ghost predicate IsTree(t: Tree, rs: seq<Range>, i: nat, j: nat, b0: nat, b1: nat) {
    && i < j <= |rs|
    && match t
       case Tight => j - i == 1 && b0 == rs[i].lo && b1 == rs[i].hi
       case Single => j - i == 1
       case Chain(order) => multiset(order) == multiset(rs[i..j])
       case Split(m, cut, left, right) =>
         && i < m < j && rs[m - 1].hi <= cut <= rs[m].lo
         && IsTree(left, rs, i, m, b0, cut) && IsTree(right, rs, m, j, cut, b1)
       case Edge(cut, above, inner) =>
         if above then b0 <= cut <= rs[i].lo && IsTree(inner, rs, i, j, cut, b1)
         else rs[j - 1].hi <= cut <= b1 && IsTree(inner, rs, i, j, b0, cut)
  }

  ghost function TreeCost(t: Tree, rs: seq<Range>, i: nat, j: nat): nat
    requires i < j <= |rs|
  {
    match t
    case Tight => 0
    case Single => SingleCost(rs[i], 0, None) * rs[i].frequency
    case Chain(order) => ChainCost(order)
    case Split(m, _, left, right) =>
      if i < m < j then Frequency(rs[i..j]) + TreeCost(left, rs, i, m) + TreeCost(right, rs, m, j) else 0
    case Edge(_, _, inner) => Frequency(rs[i..j]) + TreeCost(inner, rs, i, j)
  }

  /** The trees among which the dynamic program searches: chains by frequency, ranges on both sides of a cut. */
  ghost predicate Searched(t: Tree, rs: seq<Range>, i: nat, j: nat) {
    && i < j <= |rs|
    && match t
       case Tight => true
       case Single => true
       case Chain(order) => order == Sort(rs[i..j], ByFrequency)
       case Split(m, _, left, right) => i < m < j && Searched(left, rs, i, m) && Searched(right, rs, m, j)
       case Edge(_, _, _) => false
  }

  /** One test tells this range from everything else. */
  predicate OneTest(r: Range) { r.hi - r.lo == 1 || r.lo == 0 }

  ghost predicate OneTestEach(s: seq<Range>) { forall r :: r in s ==> OneTest(r) }

  // ----- Optimality -----

  lemma {:induction false} TryCutsBelow(rs: seq<Range>, i: nat, j: nat, b0: nat, b1: nat, m: nat, cuts: seq<nat>,
                                        best: nat, c: nat)
    requires i <= m < j <= |rs|
    ensures TryCuts(rs, i, j, b0, b1, m, cuts, best) <= best
    ensures c < |cuts| && b0 < cuts[c] < b1 && i < m ==>
              TryCuts(rs, i, j, b0, b1, m, cuts, best) <= SplitCost(rs, i, j, b0, b1, m, cuts[c])
    decreases |cuts|
  {
    if cuts != [] {
      var better := TryCut(rs, i, j, b0, b1, m, cuts[0], best);
      if c > 0 {
        TryCutsBelow(rs, i, j, b0, b1, m, cuts[1..], better, c - 1);
      } else {
        TryCutsBelow(rs, i, j, b0, b1, m, cuts[1..], better, |cuts|);
      }
    }
  }

  /** The dynamic program is at most as dear as any split at the edge of a gap. */
  lemma {:induction false} TryFromBelow(rs: seq<Range>, i: nat, j: nat, b0: nat, b1: nat, m: nat, best: nat, n: nat,
                                        c: nat)
    requires i <= m <= j <= |rs| && i < j
    ensures TryFrom(rs, i, j, b0, b1, m, best) <= best
    ensures m <= n < j && i < n && c < |Cuts(rs, i, n)| && b0 < Cuts(rs, i, n)[c] < b1 ==>
              TryFrom(rs, i, j, b0, b1, m, best) <= SplitCost(rs, i, j, b0, b1, n, Cuts(rs, i, n)[c])
    decreases j - m
  {
    if m < j {
      var cuts := Cuts(rs, i, m);
      var better := TryCuts(rs, i, j, b0, b1, m, cuts, best);
      TryCutsBelow(rs, i, j, b0, b1, m, cuts, best, c);
      TryFromBelow(rs, i, j, b0, b1, m + 1, better, n, c);
    }
  }

  lemma {:induction false} LinearCostOne(r: Range)
    ensures LinearCost([r]) == SingleCost(r, 0, None) * r.frequency
  {
    assert Sort([r], ByFrequency) == [r] by {
      assert [r][1..] == [];
    }
    assert [r][..0] == [];
    assert Frequency([r]) == r.frequency by {
      assert Sum([r][1..], RangeFrequency) == 0;
    }
    assert ChainCost([r]) == r.frequency * SingleCost(r, 0, None);
  }

  ghost predicate InGap(rs: seq<Range>, m: nat, cut: nat) {
    0 < m < |rs| && rs[m - 1].hi <= cut <= rs[m].lo
  }

  /** Tighter bounds can only help: moving a bound onto the edge of the ranges it encloses never
      raises the cost. */
  lemma {:induction false} OptTighter(rs: seq<Range>, i: nat, j: nat, b0: nat, b1: nat, c0: nat, c1: nat)
    requires Ordered(rs) && i < j <= |rs|
    requires b0 <= rs[i].lo && rs[j - 1].hi <= b1
    requires c0 == b0 || c0 == rs[i].lo
    requires c1 == b1 || c1 == rs[j - 1].hi
    ensures Opt(rs, i, j, c0, c1) <= Opt(rs, i, j, b0, b1)
    decreases j - i, 1
  {
    if j - i > 1 {
      TryTighter(rs, i, j, b0, b1, c0, c1, i, LinearCost(rs[i..j]), LinearCost(rs[i..j]));
    }
  }

  lemma {:induction false} TryTighter(rs: seq<Range>, i: nat, j: nat, b0: nat, b1: nat, c0: nat, c1: nat, m: nat,
                                      best: nat, bestC: nat)
    requires Ordered(rs) && i <= m <= j <= |rs| && i < j
    requires b0 <= rs[i].lo && rs[j - 1].hi <= b1
    requires c0 == b0 || c0 == rs[i].lo
    requires c1 == b1 || c1 == rs[j - 1].hi
    requires bestC <= best
    ensures TryFrom(rs, i, j, c0, c1, m, bestC) <= TryFrom(rs, i, j, b0, b1, m, best)
    decreases j - i, 0, j - m, 1
  {
    if m < j {
      var cuts := Cuts(rs, i, m);
      var x, y := TryCuts(rs, i, j, b0, b1, m, cuts, best), TryCuts(rs, i, j, c0, c1, m, cuts, bestC);
      CutsTighter(rs, i, j, b0, b1, c0, c1, m, cuts, best, bestC);
      TryTighter(rs, i, j, b0, b1, c0, c1, m + 1, x, y);
    }
  }

  lemma {:induction false} CutsTighter(rs: seq<Range>, i: nat, j: nat, b0: nat, b1: nat, c0: nat, c1: nat, m: nat,
                                       cuts: seq<nat>, best: nat, bestC: nat)
    requires Ordered(rs) && i <= m < j <= |rs|
    requires b0 <= rs[i].lo && rs[j - 1].hi <= b1
    requires c0 == b0 || c0 == rs[i].lo
    requires c1 == b1 || c1 == rs[j - 1].hi
    requires bestC <= best
    requires i < m ==> forall c :: c in cuts ==> InGap(rs, m, c)
    ensures TryCuts(rs, i, j, c0, c1, m, cuts, bestC) <= TryCuts(rs, i, j, b0, b1, m, cuts, best)
    decreases j - i, 0, j - m, 0, |cuts|
  {
    if cuts != [] {
      var cut := cuts[0];
      if i < m {
        assert InGap(rs, m, cut);
        OptTighter(rs, i, m, b0, cut, c0, cut);
        OptTighter(rs, m, j, cut, b1, cut, c1);
        assert SplitCost(rs, i, j, c0, c1, m, cut) <= SplitCost(rs, i, j, b0, b1, m, cut);
        TryCutIs(rs, i, j, b0, b1, m, cut, best);
        TryCutIs(rs, i, j, c0, c1, m, cut, bestC);
      }
      CutsTighter(rs, i, j, b0, b1, c0, c1, m, cuts[1..],
                  TryCut(rs, i, j, b0, b1, m, cut, best), TryCut(rs, i, j, c0, c1, m, cut, bestC));
    }
  }

  /** A cut in an inner gap always lies strictly within bounds that enclose the ranges. */
  lemma InsideBounds(rs: seq<Range>, i: nat, j: nat, b0: nat, b1: nat, m: nat, cut: nat)
    requires Ordered(rs) && i < m < j <= |rs| && InGap(rs, m, cut)
    requires b0 <= rs[i].lo && rs[j - 1].hi <= b1
    ensures b0 < cut < b1
  {
    assert rs[i].hi <= rs[m - 1].hi;
    assert rs[m].lo <= rs[j - 1].lo;
  }

  lemma {:induction false} TryCutIs(rs: seq<Range>, i: nat, j: nat, b0: nat, b1: nat, m: nat, cut: nat, best: nat)
    requires Ordered(rs) && i < m < j <= |rs| && InGap(rs, m, cut)
    requires b0 <= rs[i].lo && rs[j - 1].hi <= b1
    ensures TryCut(rs, i, j, b0, b1, m, cut, best) == Min(best, SplitCost(rs, i, j, b0, b1, m, cut))
  {
    InsideBounds(rs, i, j, b0, b1, m, cut);
  }

  /** Wherever a split lies in a gap, one at the left edge of the gap does at least as well as long as
      it does not lie on the right edge. */
  lemma GapEdge(rs: seq<Range>, i: nat, j: nat, b0: nat, b1: nat, m: nat, cut: nat)
    requires Ordered(rs) && i < m < j <= |rs| && InGap(rs, m, cut)
    requires b0 <= rs[i].lo && rs[j - 1].hi <= b1
    ensures SplitCost(rs, i, j, b0, b1, m, rs[m].lo) <= SplitCost(rs, i, j, b0, b1, m, cut)
            || SplitCost(rs, i, j, b0, b1, m, rs[m - 1].hi) <= SplitCost(rs, i, j, b0, b1, m, cut)
  {
    if cut != rs[m].lo {
      var edge := rs[m - 1].hi;
      OptTighter(rs, i, m, b0, cut, b0, edge);
      OptLooser(rs, m, j, cut, b1, edge);
    }
  }

  /** Widening a lower bound that was not tight changes nothing. */
  lemma {:induction false} OptLooser(rs: seq<Range>, i: nat, j: nat, b0: nat, b1: nat, c0: nat)
    requires Ordered(rs) && i < j <= |rs|
    requires c0 <= b0 < rs[i].lo && rs[j - 1].hi <= b1
    ensures Opt(rs, i, j, c0, b1) == Opt(rs, i, j, b0, b1)
    decreases j - i, 1
  {
    if j - i > 1 {
      TryLooser(rs, i, j, b0, b1, c0, i, LinearCost(rs[i..j]));
    }
  }

  lemma {:induction false} TryLooser(rs: seq<Range>, i: nat, j: nat, b0: nat, b1: nat, c0: nat, m: nat, best: nat)
    requires Ordered(rs) && i <= m <= j <= |rs| && i < j
    requires c0 <= b0 < rs[i].lo && rs[j - 1].hi <= b1
    ensures TryFrom(rs, i, j, c0, b1, m, best) == TryFrom(rs, i, j, b0, b1, m, best)
    decreases j - i, 0, j - m, 1
  {
    if m < j {
      var cuts := Cuts(rs, i, m);
      CutsLooser(rs, i, j, b0, b1, c0, m, cuts, best);
      TryLooser(rs, i, j, b0, b1, c0, m + 1, TryCuts(rs, i, j, b0, b1, m, cuts, best));
    }
  }

  lemma {:induction false} CutsLooser(rs: seq<Range>, i: nat, j: nat, b0: nat, b1: nat, c0: nat, m: nat,
                                      cuts: seq<nat>, best: nat)
    requires Ordered(rs) && i <= m < j <= |rs|
    requires c0 <= b0 < rs[i].lo && rs[j - 1].hi <= b1
    requires i < m ==> forall c :: c in cuts ==> InGap(rs, m, c)
    ensures TryCuts(rs, i, j, c0, b1, m, cuts, best) == TryCuts(rs, i, j, b0, b1, m, cuts, best)
    decreases j - i, 0, j - m, 0, |cuts|
  {
    if cuts != [] {
      var cut := cuts[0];
      if i < m {
        assert InGap(rs, m, cut);
        OptLooser(rs, i, m, b0, cut, c0);
        assert SplitCost(rs, i, j, c0, b1, m, cut) == SplitCost(rs, i, j, b0, b1, m, cut);
        TryCutIs(rs, i, j, b0, b1, m, cut, best);
        TryCutIs(rs, i, j, c0, b1, m, cut, best);
      }
      CutsLooser(rs, i, j, b0, b1, c0, m, cuts[1..], TryCut(rs, i, j, b0, b1, m, cut, best));
    }
  }

  // ----- Chains in another order -----

  lemma FrequencyConcat(s: seq<Range>, t: seq<Range>)
    ensures Frequency(s + t) == Frequency(s) + Frequency(t)
  {
    SumConcat(s, t, RangeFrequency);
  }

  lemma FrequencyOne(r: Range)
    ensures Frequency([r]) == r.frequency
  {
    assert [r][1..] == [];
    assert Sum([r][1..], RangeFrequency) == 0;
  }

  lemma {:induction false} ChainCostSnoc(s: seq<Range>, r: Range)
    requires OneTest(r)
    ensures ChainCost(s + [r]) == ChainCost(s) + Frequency(s) + r.frequency
  {
    hide Frequency;
    var t := s + [r];
    assert t[..|t| - 1] == s && t[|t| - 1] == r;
    FrequencyConcat(s, [r]);
    FrequencyOne(r);
  }

  /** A range tested last of all. */
  lemma {:induction false} ChainCostCons(x: Range, t: seq<Range>)
    requires OneTest(x) && OneTestEach(t)
    ensures ChainCost([x] + t) == x.frequency * (|t| + 1) + ChainCost(t)
    decreases |t|
  {
    hide ChainCost, Frequency, OneTest;
    if t == [] {
      assert [x] + t == [] + [x];
      ChainCostSnoc([], x);
      ChainCostNone();
    } else {
      var n := |t| - 1;
      var u, r := t[..n], t[n];
      assert t == u + [r] && [x] + t == ([x] + u) + [r];
      assert r in t && forall q :: q in u ==> q in t;
      ChainCostCons(x, u);
      ChainCostSnoc([x] + u, r);
      ChainCostSnoc(u, r);
      FrequencyConcat([x], u);
      FrequencyOne(x);
      MulStep(x.frequency, |t|);
    }
  }

  lemma ChainCostNone()
    ensures ChainCost([]) == 0 && Frequency([]) == 0
  {
  }

  /** Moving a range behind rarer ones, so that it is tested before them, never costs more. */
  lemma {:induction false} MoveBehind(x: Range, u: seq<Range>, v: seq<Range>)
    requires OneTest(x) && OneTestEach(u) && OneTestEach(v)
    requires forall y :: y in u ==> y.frequency <= x.frequency
    ensures ChainCost(u + [x] + v) <= ChainCost([x] + (u + v))
    decreases |u|
  {
    hide ChainCost, OneTest;
    if u == [] {
      assert u + [x] + v == [x] + (u + v);
    } else {
      var y, u' := u[0], u[1..];
      assert u == [y] + u' && y in u && forall r :: r in u' ==> r in u;
      MoveBehind(x, u', v);
      assert u + [x] + v == [y] + (u' + [x] + v);
      assert u + v == [y] + (u' + v);
      ChainCostCons(y, u' + [x] + v);
      ChainCostCons(x, u + v);
      ChainCostCons(y, u' + v);
      ChainCostCons(x, u' + v);
      var n := |u' + v|;
      MulStep(x.frequency, n + 1);
      MulStep(y.frequency, n + 1);
    }
  }

  lemma MulStep(f: nat, n: nat)
    ensures f * (n + 1) == f * n + f
  {
  }

  lemma WithoutOne(sorted: seq<Range>, p: nat)
    requires p < |sorted| && SortedBy(sorted, ByFrequency)
    ensures SortedBy(sorted[..p] + sorted[p + 1..], ByFrequency)
    ensures forall y :: y in sorted[..p] ==> y.frequency <= sorted[p].frequency
  {
    var w := sorted[..p] + sorted[p + 1..];
    forall k, l | 0 <= k < l < |w|
      ensures ByFrequency(w[k]) <= ByFrequency(w[l])
    {
      assert w[k] == sorted[if k < p then k else k + 1] && w[l] == sorted[if l < p then l else l + 1];
    }
    forall y | y in sorted[..p]
      ensures y.frequency <= sorted[p].frequency
    {
      var k :| 0 <= k < p && sorted[k] == y;
      assert ByFrequency(sorted[k]) <= ByFrequency(sorted[p]);
    }
  }

  lemma SameWithoutOne(u: seq<Range>, x: Range, v: seq<Range>, rest: seq<Range>)
    requires multiset(u + [x] + v) == multiset([x] + rest)
    ensures multiset(u + v) == multiset(rest) && |u + v| == |rest|
    ensures forall r :: r in u || r in v ==> r in rest
  {
    assert multiset(u + v) == multiset(u + [x] + v) - multiset{x};
    assert multiset(rest) == multiset([x] + rest) - multiset{x};
    assert |multiset(u + v)| == |multiset(rest)|;
    forall r | r in u || r in v
      ensures r in rest
    {
      assert r in multiset(u + v);
      assert r in multiset(rest);
    }
  }

  lemma TakenOut(sorted: seq<Range>, order: seq<Range>) returns (u: seq<Range>, v: seq<Range>)
    requires order != [] && SortedBy(sorted, ByFrequency) && multiset(sorted) == multiset(order)
    ensures sorted == u + [order[0]] + v && multiset(u + v) == multiset(order[1..])
    ensures SortedBy(u + v, ByFrequency) && forall y :: y in u ==> y.frequency <= order[0].frequency
    ensures |u + v| == |order[1..]|
    ensures forall r :: r in u || r in v ==> r in order
  {
    hide SortedBy, ByFrequency;
    var x := order[0];
    assert order == [x] + order[1..];
    assert x in multiset(sorted);
    var p :| 0 <= p < |sorted| && sorted[p] == x;
    u, v := sorted[..p], sorted[p + 1..];
    assert sorted == u + [x] + v;
    WithoutOne(sorted, p);
    SameWithoutOne(u, x, v, order[1..]);
  }

  /** The order by frequency is the cheapest one when every range takes one test. */
  lemma {:induction false} SortedIsCheapest(sorted: seq<Range>, order: seq<Range>)
    requires OneTestEach(order) && SortedBy(sorted, ByFrequency) && multiset(sorted) == multiset(order)
    ensures ChainCost(sorted) <= ChainCost(order)
    decreases |order|
  {
    hide ChainCost, OneTest, SortedBy;
    if order == [] {
      assert |multiset(sorted)| == 0;
      assert sorted == [];
    } else {
      var x, rest := order[0], order[1..];
      assert order == [x] + rest && x in order;
      var u, v := TakenOut(sorted, order);
      assert forall r :: r in rest ==> r in order;
      SortedIsCheapest(u + v, rest);
      MoveBehind(x, u, v);
      ChainCostCons(x, u + v);
      ChainCostCons(x, rest);
    }
  }

  lemma {:induction false} ChainAnyOrder(rs: seq<Range>, i: nat, j: nat, order: seq<Range>)
    requires i < j <= |rs| && OneTestEach(rs[i..j]) && multiset(order) == multiset(rs[i..j])
    ensures LinearCost(rs[i..j]) <= ChainCost(order)
  {
    var s := rs[i..j];
    SortSorts(s, ByFrequency);
    assert forall r :: r in order ==> r in multiset(order);
    assert forall r :: r in order ==> r in s;
    SortedIsCheapest(Sort(s, ByFrequency), order);
  }

  // ----- Cutting off an edge -----

  /** The dynamic program settles for the chain or for one of its splits. */
  lemma OptCases(rs: seq<Range>, i: nat, j: nat, b0: nat, b1: nat) returns (split: bool, m: nat, cut: nat)
    requires Ordered(rs) && i + 1 < j <= |rs| && b0 <= rs[i].lo && rs[j - 1].hi <= b1
    ensures !split ==> Opt(rs, i, j, b0, b1) == LinearCost(rs[i..j])
    ensures split ==> i < m < j && InGap(rs, m, cut) && Opt(rs, i, j, b0, b1) == SplitCost(rs, i, j, b0, b1, m, cut)
  {
    split, m, cut := TryCases(rs, i, j, b0, b1, i, LinearCost(rs[i..j]));
  }

  lemma {:induction false} TryCases(rs: seq<Range>, i: nat, j: nat, b0: nat, b1: nat, n: nat, best: nat)
    returns (split: bool, m: nat, cut: nat)
    requires Ordered(rs) && i <= n <= j <= |rs| && i < j
    ensures !split ==> TryFrom(rs, i, j, b0, b1, n, best) == best
    ensures split ==> i < m < j && InGap(rs, m, cut)
                      && TryFrom(rs, i, j, b0, b1, n, best) == SplitCost(rs, i, j, b0, b1, m, cut)
    decreases j - n
  {
    hide Opt, SplitCost;
    split, m, cut := false, 0, 0;
    if n < j {
      var cuts := Cuts(rs, i, n);
      var better := TryCuts(rs, i, j, b0, b1, n, cuts, best);
      split, m, cut := TryCases(rs, i, j, b0, b1, n + 1, better);
      if !split {
        m := n;
        split, cut := CutsCases(rs, i, j, b0, b1, n, cuts, best);
      }
    }
  }

  lemma {:induction false} CutsCases(rs: seq<Range>, i: nat, j: nat, b0: nat, b1: nat, m: nat, cuts: seq<nat>,
                                     best: nat)
    returns (split: bool, cut: nat)
    requires Ordered(rs) && i <= m < j <= |rs| && (i < m ==> forall c :: c in cuts ==> InGap(rs, m, c))
    ensures !split ==> TryCuts(rs, i, j, b0, b1, m, cuts, best) == best
    ensures split ==> i < m && InGap(rs, m, cut)
                      && TryCuts(rs, i, j, b0, b1, m, cuts, best) == SplitCost(rs, i, j, b0, b1, m, cut)
    decreases |cuts|
  {
    hide Opt, SplitCost, InGap;
    split, cut := false, 0;
    if cuts != [] {
      var better := TryCut(rs, i, j, b0, b1, m, cuts[0], best);
      split, cut := CutsCases(rs, i, j, b0, b1, m, cuts[1..], better);
      if !split && better != best {
        split, cut := true, cuts[0];
      }
    }
  }

  /** A tighter lower bound saves at most the first range's test. */
  lemma {:induction false} LowerEdgeSaves(rs: seq<Range>, i: nat, j: nat, b0: nat, c0: nat, b1: nat)
    requires Ordered(rs) && i < j <= |rs| && OneTest(rs[i])
    requires b0 <= c0 <= rs[i].lo && rs[j - 1].hi <= b1
    ensures Opt(rs, i, j, b0, b1) <= rs[i].frequency + Opt(rs, i, j, c0, b1)
    decreases j - i
  {
    hide Opt, LinearCost, Frequency;
    if j - i == 1 {
      LeafBelow(rs, i, b0, b1);
      LeafBelow(rs, i, c0, b1);
    } else {
      var split, m, cut := OptCases(rs, i, j, c0, b1);
      if split {
        LowerEdgeSaves(rs, i, m, b0, c0, cut);
        OptBelowSplit(rs, i, j, b0, b1, m, cut);
      } else {
        ChainBelow(rs, i, j, b0, b1);
      }
    }
  }

  /** A tighter upper bound saves at most the last range's test. */
  lemma {:induction false} UpperEdgeSaves(rs: seq<Range>, i: nat, j: nat, b0: nat, b1: nat, c1: nat)
    requires Ordered(rs) && i < j <= |rs| && OneTest(rs[j - 1])
    requires b0 <= rs[i].lo && rs[j - 1].hi <= c1 <= b1
    ensures Opt(rs, i, j, b0, b1) <= rs[j - 1].frequency + Opt(rs, i, j, b0, c1)
    decreases j - i
  {
    hide Opt, LinearCost, Frequency;
    if j - i == 1 {
      LeafBelow(rs, i, b0, b1);
      LeafBelow(rs, i, b0, c1);
    } else {
      var split, m, cut := OptCases(rs, i, j, b0, c1);
      if split {
        UpperEdgeSaves(rs, m, j, cut, b1, c1);
        OptBelowSplit(rs, i, j, b0, b1, m, cut);
      } else {
        ChainBelow(rs, i, j, b0, b1);
      }
    }
  }

  /** The dynamic program is at most as dear as a split anywhere in a gap. */
  lemma {:induction false} OptBelowSplit(rs: seq<Range>, i: nat, j: nat, b0: nat, b1: nat, m: nat, cut: nat)
    requires Ordered(rs) && i < m < j <= |rs| && InGap(rs, m, cut)
    requires b0 <= rs[i].lo && rs[j - 1].hi <= b1
    ensures Opt(rs, i, j, b0, b1) <= SplitCost(rs, i, j, b0, b1, m, cut)
  {
    GapEdge(rs, i, j, b0, b1, m, cut);
    InsideBounds(rs, i, j, b0, b1, m, rs[m].lo);
    InsideBounds(rs, i, j, b0, b1, m, rs[m - 1].hi);
    TryFromBelow(rs, i, j, b0, b1, i, LinearCost(rs[i..j]), m, 0);
    TryFromBelow(rs, i, j, b0, b1, i, LinearCost(rs[i..j]), m, 1);
  }

  lemma FrequencyHolds(rs: seq<Range>, i: nat, j: nat, k: nat)
    requires i <= k < j <= |rs|
    ensures rs[k].frequency <= Frequency(rs[i..j])
  {
    var s, p := rs[i..j], k - i;
    assert s == s[..p] + [s[p]] + s[p + 1..];
    SumConcat(s[..p] + [s[p]], s[p + 1..], RangeFrequency);
    SumConcat(s[..p], [s[p]], RangeFrequency);
    assert Sum([s[p]], RangeFrequency) == s[p].frequency by {
      assert [s[p]][1..] == [];
    }
  }

  // ----- The lower bound -----

  /** No tree that the dynamic program searches costs less than it reports, and no decision tree at all - chains in
      any order, tests at the edges - when every range is told apart by one test: a single number, or a start at 0. */
  lemma {:induction false} OptIsLowerBound(t: Tree, rs: seq<Range>, i: nat, j: nat, b0: nat, b1: nat)
    requires Ordered(rs) && IsTree(t, rs, i, j, b0, b1)
    requires Searched(t, rs, i, j) || OneTestEach(rs[i..j])
    requires b0 <= rs[i].lo && rs[j - 1].hi <= b1
    ensures Opt(rs, i, j, b0, b1) <= TreeCost(t, rs, i, j)
    decreases j - i, 1, t
  {
    hide Opt, OneTest, Frequency;
    match t {
      case Tight => LeafBelow(rs, i, b0, b1);
      case Single => LeafBelow(rs, i, b0, b1);
      case Chain(order) =>
        if !Searched(t, rs, i, j) {
          ChainAnyOrder(rs, i, j, order);
        }
        ChainBelow(rs, i, j, b0, b1);
      case Split(m, cut, left, right) =>
        SliceOneTest(rs, i, j, i, m);
        SliceOneTest(rs, i, j, m, j);
        OptIsLowerBound(left, rs, i, m, b0, cut);
        OptIsLowerBound(right, rs, m, j, cut, b1);
        OptBelowSplit(rs, i, j, b0, b1, m, cut);
      case Edge(cut, above, inner) =>
        assert rs[i] == rs[i..j][0] && rs[j - 1] == rs[i..j][j - i - 1];
        if above {
          OptIsLowerBound(inner, rs, i, j, cut, b1);
          LowerEdgeSaves(rs, i, j, b0, cut, b1);
          FrequencyHolds(rs, i, j, i);
        } else {
          OptIsLowerBound(inner, rs, i, j, b0, cut);
          UpperEdgeSaves(rs, i, j, b0, b1, cut);
          FrequencyHolds(rs, i, j, j - 1);
        }
    }
  }

  lemma LeafBelow(rs: seq<Range>, i: nat, b0: nat, b1: nat)
    requires i < |rs|
    ensures Opt(rs, i, i + 1, b0, b1)
         == if b0 == rs[i].lo && b1 == rs[i].hi then 0 else SingleCost(rs[i], 0, None) * rs[i].frequency
  {
  }

  lemma {:induction false} ChainBelow(rs: seq<Range>, i: nat, j: nat, b0: nat, b1: nat)
    requires i < j <= |rs|
    ensures Opt(rs, i, j, b0, b1) <= LinearCost(rs[i..j])
  {
    if j - i == 1 {
      assert rs[i..j] == [rs[i]];
      LinearCostOne(rs[i]);
    } else {
      TryFromBelow(rs, i, j, b0, b1, i, LinearCost(rs[i..j]), i, 0);
    }
  }

  lemma SliceOneTest(rs: seq<Range>, i: nat, j: nat, k: nat, l: nat)
    requires i <= k <= l <= j <= |rs|
    ensures OneTestEach(rs[i..j]) ==> OneTestEach(rs[k..l])
  {
    assert forall r :: r in rs[k..l] ==> r in rs[i..j];
  }

  /** ... and some decision tree costs exactly that. */
  lemma {:induction false} OptIsReached(rs: seq<Range>, i: nat, j: nat, b0: nat, b1: nat) returns (t: Tree)
    requires Ordered(rs) && i < j <= |rs| && b0 <= rs[i].lo && rs[j - 1].hi <= b1
    ensures IsTree(t, rs, i, j, b0, b1) && Searched(t, rs, i, j) && TreeCost(t, rs, i, j) == Opt(rs, i, j, b0, b1)
    ensures j - i > 1 ==> !t.Tight? && !t.Single?
    decreases j - i, 2
  {
    if j - i == 1 {
      t := if b0 == rs[i].lo && b1 == rs[i].hi then Tight else Single;
    } else {
      SortSorts(rs[i..j], ByFrequency);
      t := TryIsReached(rs, i, j, b0, b1, i, LinearCost(rs[i..j]), Chain(Sort(rs[i..j], ByFrequency)));
    }
  }

  lemma {:induction false} TryIsReached(rs: seq<Range>, i: nat, j: nat, b0: nat, b1: nat, m: nat, best: nat,
                                        soFar: Tree) returns (t: Tree)
    requires Ordered(rs) && i <= m <= j <= |rs| && i < j && b0 <= rs[i].lo && rs[j - 1].hi <= b1
    requires IsTree(soFar, rs, i, j, b0, b1) && Searched(soFar, rs, i, j) && TreeCost(soFar, rs, i, j) == best
    requires !soFar.Tight? && !soFar.Single?
    ensures IsTree(t, rs, i, j, b0, b1) && TreeCost(t, rs, i, j) == TryFrom(rs, i, j, b0, b1, m, best)
    ensures Searched(t, rs, i, j) && !t.Tight? && !t.Single?
    decreases j - i, 1, j - m
  {
    hide IsTree, Searched, TreeCost, TryCuts;
    if m == j {
      t := soFar;
    } else {
      var cuts := Cuts(rs, i, m);
      t := CutsReached(rs, i, j, b0, b1, m, cuts, best, soFar);
      t := TryIsReached(rs, i, j, b0, b1, m + 1, TryCuts(rs, i, j, b0, b1, m, cuts, best), t);
    }
  }

  lemma {:induction false} CutsReached(rs: seq<Range>, i: nat, j: nat, b0: nat, b1: nat, m: nat, cuts: seq<nat>,
                                       best: nat, soFar: Tree) returns (t: Tree)
    requires Ordered(rs) && i <= m < j <= |rs| && b0 <= rs[i].lo && rs[j - 1].hi <= b1
    requires i < m ==> forall c :: c in cuts ==> InGap(rs, m, c)
    requires IsTree(soFar, rs, i, j, b0, b1) && Searched(soFar, rs, i, j) && TreeCost(soFar, rs, i, j) == best
    requires !soFar.Tight? && !soFar.Single?
    ensures IsTree(t, rs, i, j, b0, b1) && TreeCost(t, rs, i, j) == TryCuts(rs, i, j, b0, b1, m, cuts, best)
    ensures Searched(t, rs, i, j) && !t.Tight? && !t.Single?
    decreases j - i, 0, |cuts|
  {
    hide IsTree, Searched, TreeCost, Opt;
    t := soFar;
    if cuts != [] {
      var cut := cuts[0];
      var better := TryCut(rs, i, j, b0, b1, m, cut, best);
      if better != best {
        assert InGap(rs, m, cut);
        var left := OptIsReached(rs, i, m, b0, cut);
        var right := OptIsReached(rs, m, j, cut, b1);
        t := Split(m, cut, left, right);
        SplitIsTree(rs, i, j, b0, b1, m, cut, left, right);
        TryCutIs(rs, i, j, b0, b1, m, cut, best);
      }
      t := CutsReached(rs, i, j, b0, b1, m, cuts[1..], better, t);
    }
  }

  lemma {:induction false} SplitIsTree(rs: seq<Range>, i: nat, j: nat, b0: nat, b1: nat, m: nat, cut: nat,
                                       left: Tree, right: Tree)
    requires i < m < j <= |rs| && InGap(rs, m, cut)
    requires IsTree(left, rs, i, m, b0, cut) && Searched(left, rs, i, m) && TreeCost(left, rs, i, m) == Opt(rs, i, m, b0, cut)
    requires IsTree(right, rs, m, j, cut, b1) && Searched(right, rs, m, j) && TreeCost(right, rs, m, j) == Opt(rs, m, j, cut, b1)
    ensures var t := Split(m, cut, left, right);
            IsTree(t, rs, i, j, b0, b1) && Searched(t, rs, i, j) && TreeCost(t, rs, i, j) == SplitCost(rs, i, j, b0, b1, m, cut)
  {
  }
}
