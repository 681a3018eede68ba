/** Decision trees that _compile_entries_bst of tools/compiler.py does not try, and that can be
    cheaper than the cheapest one it finds: what its comment calls the absolute minimum is one among the
    trees of BstCost.IsTree, and only when every range is told apart by one test. */
module SearchLimits {
  import opened Machine
  import opened Blocks
  import opened Sorting
  import opened Ranges
  import opened RangeTests
  import opened BstCost
  import opened Bst

  // ----- Tests at the outer edges -----

  /** Two touching ranges with different actions, each asked for once. */
  const TWO_RANGES: seq<Range> := [Range(10, 20, 1, Some(0)), Range(20, 30, 1, None)]

  /** A hand-made tree: reject from 30 on, then split at 20, then reject below 10. */
  const EDGE_TESTS: Arena :=
    [ActionBlock(Trap), ActionBlock(Allow), ActionBlock(KillProcess),
     SyscallEntry(Jge, 10, 0, 2), SyscallEntry(Jge, 20, 1, 3), SyscallEntry(Jge, 30, 2, 4)]

  lemma LinearCostOfTwo()
    ensures LinearCost(TWO_RANGES) == 6
  {
    var a, b := TWO_RANGES[0], TWO_RANGES[1];
    assert Sort([b], ByFrequency) == [b] by {
      assert [b][1..] == [];
    }
    assert TWO_RANGES[1..] == [b];
    var s := Sort(TWO_RANGES, ByFrequency);
    assert s == Insert(a, [b], ByFrequency);
    assert [b][1..] == [];
    assert s == [a, b] || s == [b, a];
    TwoSums(s[0], s[1]);
    assert s == [s[0], s[1]] && s[..1] == [s[0]];
    assert s[..1][..0] == [];
    assert ChainCost(s[..1]) == 2;
  }

  lemma TwoSums(q: Range, r: Range)
    ensures Frequency([q]) == q.frequency && Frequency([q, r]) == q.frequency + r.frequency
  {
    assert [q, r][1..] == [r] && [r][1..] == [] && [q][1..] == [];
    assert Sum([r], RangeFrequency) == r.frequency;
  }

  lemma OptOfTwo()
    ensures Opt(TWO_RANGES, 0, 2, 0, TOP) == 6
  {
    var rs := TWO_RANGES;
    LinearCostOfTwo();
    assert rs[0..2] == rs;
    TwoSums(rs[0], rs[1]);
    assert rs == [rs[0], rs[1]];
    assert Opt(rs, 0, 1, 0, 20) == 2 && Opt(rs, 1, 2, 20, TOP) == 2;
    assert SplitCost(rs, 0, 2, 0, TOP, 1, 20) == 6;
    var none: seq<nat>, ten: seq<nat>, twenty: seq<nat> := [], [10], [20];
    assert ten[1..] == none && twenty[1..] == none && [20, 20][1..] == twenty;
    assert Cuts(rs, 0, 0) == ten && Cuts(rs, 0, 1) == [20, 20];
    assert TryCuts(rs, 0, 2, 0, TOP, 0, none, 6) == 6 && TryCuts(rs, 0, 2, 0, TOP, 1, none, 6) == 6;
    assert TryCuts(rs, 0, 2, 0, TOP, 0, ten, 6) == 6;
    assert TryCuts(rs, 0, 2, 0, TOP, 1, twenty, 6) == 6;
    assert TryCuts(rs, 0, 2, 0, TOP, 1, [20, 20], 6) == 6;
    assert TryFrom(rs, 0, 2, 0, TOP, 2, 6) == 6;
    assert TryFrom(rs, 0, 2, 0, TOP, 1, 6) == 6;
  }

  lemma {:induction false} EdgeRoute(x: nat)
    ensures Resolve(EDGE_TESTS, 5, x) == if x >= 30 || x < 10 then 2 else if x >= 20 then 1 else 0
    ensures 10 <= x < 30 ==> Tests(EDGE_TESTS, 5, x) == if x >= 20 then 2 else 3
  {
    var arena := EDGE_TESTS;
    assert Resolve(arena, 3, x) == if x >= 10 then 0 else 2;
    assert Resolve(arena, 4, x) == if x >= 20 then 1 else Resolve(arena, 3, x);
    assert Tests(arena, 3, x) == 1;
    assert Tests(arena, 4, x) == if x >= 20 then 1 else 2;
  }

  /** A tree with tests at the outer edges decides the same ranges with fewer weighted tests than the
      cheapest tree of the search, whose splits all have ranges on both sides. */
  lemma EdgeTestsAreCheaper(pick: Range -> nat)
    requires PicksInside(TWO_RANGES, pick)
    ensures WellFormed(EDGE_TESTS) && Lowered(EDGE_TESTS, 5)
    ensures forall x: nat :: Picks(EDGE_TESTS, 5, TWO_RANGES, x, 1, 2)
    ensures Weighted(EDGE_TESTS, 5, TWO_RANGES, pick) == 5 < Opt(TWO_RANGES, 0, 2, 0, TOP)
  {
    OptOfTwo();
    forall x: nat
      ensures Picks(EDGE_TESTS, 5, TWO_RANGES, x, 1, 2)
    {
      EdgeRoute(x);
    }
    var left, right := TWO_RANGES[0], TWO_RANGES[1];
    EdgeRoute(pick(left));
    EdgeRoute(pick(right));
    var load := TestLoad(EDGE_TESTS, 5, pick);
    assert left in TWO_RANGES && right in TWO_RANGES;
    assert load(left) == 3 && load(right) == 2;
    assert TWO_RANGES[1..] == [right] && [right][1..] == [];
    assert Sum([right], load) == 2;
  }

  // ----- Chains in another order -----

  /** A wide range that is asked for more often than a single number. */
  const UNEVEN: seq<Range> := [Range(10, 20, 3, None), Range(30, 31, 2, None)]

  lemma UnevenChains()
    ensures ChainCost(UNEVEN) == 11 && LinearCost(UNEVEN) == 12
  {
    var a, b := UNEVEN[0], UNEVEN[1];
    assert UNEVEN == [a, b] && UNEVEN[1..] == [b];
    assert Sort([b], ByFrequency) == [b] by {
      assert [b][1..] == [];
    }
    assert [b][1..] == [] && Insert(a, [], ByFrequency) == [a];
    assert Sort(UNEVEN, ByFrequency) == [b, a];
    TwoSums(a, b);
    TwoSums(b, a);
    assert [a, b][..1] == [a] && [b, a][..1] == [b] && [a][..0] == [] && [b][..0] == [];
    assert ChainCost([a]) == 6 && ChainCost([b]) == 2;
  }

  /** The reversed chain is cheaper than the order by frequency and than every split: a range that takes two tests
      burdens what comes behind it. */
  lemma FrequencyOrderIsDearer()
    ensures Ordered(UNEVEN) && IsTree(Chain(UNEVEN), UNEVEN, 0, 2, 0, TOP)
    ensures TreeCost(Chain(UNEVEN), UNEVEN, 0, 2) == 11 < Opt(UNEVEN, 0, 2, 0, TOP)
  {
    hide Opt, LinearCost, ChainCost, Frequency;
    UnevenChains();
    assert UNEVEN[0..2] == UNEVEN == [UNEVEN[0], UNEVEN[1]];
    TwoSums(UNEVEN[0], UNEVEN[1]);
    var split, m, cut := OptCases(UNEVEN, 0, 2, 0, TOP);
    if split {
      LeafBelow(UNEVEN, 0, 0, cut);
      LeafBelow(UNEVEN, 1, cut, TOP);
    }
  }

  // ----- One test ahead of a tree -----

  /** Five rare numbers and one frequent one. */
  const RARE_AND_FREQUENT: seq<Range> :=
    [Range(10, 11, 1, None), Range(20, 21, 1, None), Range(30, 31, 1, None), Range(40, 41, 1, None), Range(50, 51, 1, None),
     Range(60, 61, 100, None)]

  /** A hand-made tree: the frequent number first, then a split at 30 with a chain on either side. */
  const TEST_THEN_TREE: Arena :=
    [ActionBlock(Allow), ActionBlock(KillProcess),
     SyscallEntry(Jeq, 20, 0, 1), SyscallEntry(Jeq, 10, 0, 2),
     SyscallEntry(Jeq, 50, 0, 1), SyscallEntry(Jeq, 40, 0, 4), SyscallEntry(Jeq, 30, 0, 5),
     SyscallEntry(Jge, 30, 6, 3), SyscallEntry(Jeq, 60, 0, 7)]

  lemma LinearCostHolds(s: seq<Range>)
    requires s != []
    ensures LinearCost(s) >= Frequency(s)
  {
    SumSort(s, ByFrequency, RangeFrequency);
    SortSorts(s, ByFrequency);
    var t := Sort(s, ByFrequency);
    assert |multiset(t)| == |multiset(s)|;
    MulBound(Frequency(t), 1, SingleCost(t[|t| - 1], 0, None), 0);
  }

  /** Whatever is not enclosed tightly is paid for. */
  lemma {:induction false} LastIsPaid(rs: seq<Range>, i: nat, j: nat, b0: nat, b1: nat)
    requires Ordered(rs) && i < j <= |rs| && b0 <= rs[i].lo && rs[j - 1].hi < b1
    ensures Opt(rs, i, j, b0, b1) >= rs[j - 1].frequency
  {
    hide Opt, LinearCost, Frequency;
    FrequencyHolds(rs, i, j, j - 1);
    if j - i == 1 {
      LeafBelow(rs, i, b0, b1);
    } else {
      LinearCostHolds(rs[i..j]);
      var split, m, cut := OptCases(rs, i, j, b0, b1);
    }
  }

  lemma {:induction false} SortedStays(s: seq<Range>)
    requires SortedBy(s, ByFrequency)
    ensures Sort(s, ByFrequency) == s
  {
    if s != [] {
      SortedHead(s, ByFrequency);
      SortedStays(s[1..]);
      assert s == [s[0]] + s[1..];
      assert s[1..] != [] ==> s[1..][0] in s;
    }
  }

  lemma RareChain()
    ensures LinearCost(RARE_AND_FREQUENT) == 120 && Frequency(RARE_AND_FREQUENT) == 105
  {
    hide Frequency, ChainCost, Sort;
    var s := RARE_AND_FREQUENT;
    SortedStays(s);
    ChainCostNone();
    assert s[..1] == [] + [s[0]] && s[..2] == s[..1] + [s[1]] && s[..3] == s[..2] + [s[2]];
    assert s[..4] == s[..3] + [s[3]] && s[..5] == s[..4] + [s[4]] && s == s[..5] + [s[5]];
    ChainGrows([], s[0]);
    ChainGrows(s[..1], s[1]);
    ChainGrows(s[..2], s[2]);
    ChainGrows(s[..3], s[3]);
    ChainGrows(s[..4], s[4]);
    ChainGrows(s[..5], s[5]);
  }

  lemma {:induction false} ChainGrows(s: seq<Range>, r: Range)
    requires OneTest(r)
    ensures ChainCost(s + [r]) == ChainCost(s) + Frequency(s) + r.frequency
    ensures Frequency(s + [r]) == Frequency(s) + r.frequency
  {
    hide ChainCost, Frequency;
    ChainCostSnoc(s, r);
    FrequencyConcat(s, [r]);
    FrequencyOne(r);
  }

  lemma {:induction false} TestThenRoute(x: nat)
    ensures Resolve(TEST_THEN_TREE, 8, x) == if x in {10, 20, 30, 40, 50, 60} then 0 else 1
    ensures Tests(TEST_THEN_TREE, 8, 60) == 1 && Tests(TEST_THEN_TREE, 8, 10) == 3 && Tests(TEST_THEN_TREE, 8, 20) == 4
    ensures Tests(TEST_THEN_TREE, 8, 30) == 3 && Tests(TEST_THEN_TREE, 8, 40) == 4 && Tests(TEST_THEN_TREE, 8, 50) == 5
  {
    LeftRoute(x);
    LeftRoute(10);
    LeftRoute(20);
    RightRoute(x);
    RightRoute(30);
    RightRoute(40);
    RightRoute(50);
    assert Resolve(TEST_THEN_TREE, 7, x) == Resolve(TEST_THEN_TREE, if x >= 30 then 6 else 3, x);
  }

  lemma {:induction false} LeftRoute(x: nat)
    ensures Resolve(TEST_THEN_TREE, 3, x) == if x == 10 || x == 20 then 0 else 1
    ensures Tests(TEST_THEN_TREE, 3, x) == if x == 10 then 1 else 2
  {
    assert Resolve(TEST_THEN_TREE, 2, x) == if x == 20 then 0 else 1;
    assert Tests(TEST_THEN_TREE, 2, x) == 1;
  }

  lemma {:induction false} RightRoute(x: nat)
    ensures Resolve(TEST_THEN_TREE, 6, x) == if x == 30 || x == 40 || x == 50 then 0 else 1
    ensures Tests(TEST_THEN_TREE, 6, x) == if x == 30 then 1 else if x == 40 then 2 else 3
  {
    assert Resolve(TEST_THEN_TREE, 4, x) == if x == 50 then 0 else 1;
    assert Tests(TEST_THEN_TREE, 4, x) == 1;
    assert Resolve(TEST_THEN_TREE, 5, x) == if x == 40 then 0 else Resolve(TEST_THEN_TREE, 4, x);
    assert Tests(TEST_THEN_TREE, 5, x) == if x == 40 then 1 else 2;
  }

  lemma RareOpt()
    ensures Ordered(RARE_AND_FREQUENT) && OneTestEach(RARE_AND_FREQUENT)
    ensures Opt(RARE_AND_FREQUENT, 0, 6, 0, TOP) == 120
  {
    hide Opt, LinearCost, Frequency;
    var rs := RARE_AND_FREQUENT;
    RareChain();
    assert rs[0..6] == rs;
    ChainBelow(rs, 0, 6, 0, TOP);
    var split, m, cut := OptCases(rs, 0, 6, 0, TOP);
    if split {
      LastIsPaid(rs, m, 6, cut, TOP);
    }
  }

  lemma TestThenLoad(pick: Range -> nat, k: nat)
    requires PicksInside(RARE_AND_FREQUENT, pick) && k < 6
    ensures TestLoad(TEST_THEN_TREE, 8, pick)(RARE_AND_FREQUENT[k])
         == RARE_AND_FREQUENT[k].frequency * Tests(TEST_THEN_TREE, 8, RARE_AND_FREQUENT[k].lo)
  {
    hide Tests;
    var r := RARE_AND_FREQUENT[k];
    assert r in RARE_AND_FREQUENT && r.hi == r.lo + 1;
    assert pick(r) == r.lo;
  }

  lemma TestThenWeighs(pick: Range -> nat)
    requires PicksInside(RARE_AND_FREQUENT, pick)
    ensures Weighted(TEST_THEN_TREE, 8, RARE_AND_FREQUENT, pick) == 119
  {
    hide Tests, TestLoad, PicksInside, Sum;
    var rs, load := RARE_AND_FREQUENT, TestLoad(TEST_THEN_TREE, 8, pick);
    TestThenRoute(0);
    TestThenLoad(pick, 0);
    TestThenLoad(pick, 1);
    TestThenLoad(pick, 2);
    TestThenLoad(pick, 3);
    TestThenLoad(pick, 4);
    TestThenLoad(pick, 5);
    SumFrom(rs, load, 5);
    SumFrom(rs, load, 4);
    SumFrom(rs, load, 3);
    SumFrom(rs, load, 2);
    SumFrom(rs, load, 1);
    SumFrom(rs, load, 0);
    SumNone(load);
    assert rs[0..] == rs && rs[6..] == [];
  }

  lemma SumNone(f: Range -> nat)
    ensures Sum([], f) == 0
  {
  }

  lemma SumFrom(s: seq<Range>, f: Range -> nat, k: nat)
    requires k < |s|
    ensures Sum(s[k..], f) == f(s[k]) + Sum(s[k + 1..], f)
  {
    assert s[k..][1..] == s[k + 1..];
  }

  lemma TestThenPicks(x: nat)
    ensures Picks(TEST_THEN_TREE, 8, RARE_AND_FREQUENT, x, 0, 1)
  {
    hide Resolve;
    TestThenRoute(x);
    var rs := RARE_AND_FREQUENT;
    assert x in {10, 20, 30, 40, 50, 60} <==> exists k :: 0 <= k < 6 && x == rs[k].lo by {
      assert rs[0].lo == 10 && rs[1].lo == 20 && rs[2].lo == 30 && rs[3].lo == 40 && rs[4].lo == 50 && rs[5].lo == 60;
    }
    forall r | r in rs && Within(x, r)
      ensures x in {10, 20, 30, 40, 50, 60} && r.filter == None
    {
      var k :| 0 <= k < 6 && r == rs[k];
    }
    if x in {10, 20, 30, 40, 50, 60} {
      var k :| 0 <= k < 6 && x == rs[k].lo;
      assert rs[k] in rs && Within(x, rs[k]);
    }
  }

  lemma TestThenIsLowered()
    ensures WellFormed(TEST_THEN_TREE) && Lowered(TEST_THEN_TREE, 8)
  {
    assert Lowered(TEST_THEN_TREE, 0) && Lowered(TEST_THEN_TREE, 1);
    assert Lowered(TEST_THEN_TREE, 2) && Lowered(TEST_THEN_TREE, 4);
    assert Lowered(TEST_THEN_TREE, 3) && Lowered(TEST_THEN_TREE, 5);
    assert Lowered(TEST_THEN_TREE, 6) && Lowered(TEST_THEN_TREE, 7);
  }

  /** Even with one test per range, a tree that tests the frequent number first and then searches the others beats
      every chain and every search tree: the code ends a search in chains, but never starts one behind a test. */
  lemma TestThenTreeIsCheaper(pick: Range -> nat)
    requires PicksInside(RARE_AND_FREQUENT, pick)
    ensures OneTestEach(RARE_AND_FREQUENT)
    ensures WellFormed(TEST_THEN_TREE) && Lowered(TEST_THEN_TREE, 8)
    ensures forall x: nat :: Picks(TEST_THEN_TREE, 8, RARE_AND_FREQUENT, x, 0, 1)
    ensures Weighted(TEST_THEN_TREE, 8, RARE_AND_FREQUENT, pick) == 119 < Opt(RARE_AND_FREQUENT, 0, 6, 0, TOP)
  {
    hide Opt, Weighted, Picks, WellFormed, Lowered;
    RareOpt();
    TestThenWeighs(pick);
    TestThenIsLowered();
    forall x: nat
      ensures Picks(TEST_THEN_TREE, 8, RARE_AND_FREQUENT, x, 0, 1)
    {
      TestThenPicks(x);
    }
  }
}
