/** _compile_entries_bst of tools/compiler.py: the memoised search for a cheapest
    decision tree over the syscall ranges. */
module Bst {
  import opened Bits
  import opened Machine
  import opened Blocks
  import opened Sorting
  import opened Ranges
  import opened RangeTests
  import opened BstCost

  /** Block `id` decides every number within the bounds and its weighted tests stay within `cost`. */
  ghost predicate Good(arena: Arena, id: BlockId, rs: seq<Range>, i: nat, j: nat, b0: nat, b1: nat,
                       accept: BlockId, reject: BlockId, pick: Range -> nat, cost: nat) {
    && i < j <= |rs|
    && WellFormed(arena) && id < |arena| && Lowered(arena, id)
    && (arena[id].SyscallEntry? || (j == i + 1 && b0 == rs[i].lo && b1 == rs[i].hi))
    && (forall x: nat :: b0 <= x < b1 ==> Picks(arena, id, rs[i..j], x, accept, reject))
    && (PicksInside(rs, pick) ==> Weighted(arena, id, rs[i..j], pick) <= cost)
  }

  lemma GoodExtended(arena: Arena, bigger: Arena, id: BlockId, rs: seq<Range>, i: nat, j: nat, b0: nat, b1: nat,
                     accept: BlockId, reject: BlockId, pick: Range -> nat, cost: nat)
    requires Good(arena, id, rs, i, j, b0, b1, accept, reject, pick, cost)
    requires WellFormed(bigger) && arena <= bigger
    ensures Good(bigger, id, rs, i, j, b0, b1, accept, reject, pick, cost)
  {
    LoweredExtended(arena, bigger, id);
    forall x: nat | b0 <= x < b1
      ensures Picks(bigger, id, rs[i..j], x, accept, reject)
    {
      assert Picks(arena, id, rs[i..j], x, accept, reject);
      ResolveExtended(arena, bigger, id, x);
    }
    forall r | r in rs[i..j]
      ensures Tests(bigger, id, pick(r)) <= 0 + Tests(arena, id, pick(r))
    {
      ResolveExtended(arena, bigger, id, pick(r));
    }
    WeightedBound(bigger, id, arena, id, rs[i..j], pick, 0);
  }

  lemma SliceInside(rs: seq<Range>, i: nat, j: nat, pick: Range -> nat)
    requires i <= j <= |rs| && PicksInside(rs, pick)
    ensures PicksInside(rs[i..j], pick)
  {
    forall r | r in rs[i..j]
      ensures Within(pick(r), r)
    {
      assert r in rs;
    }
  }

  lemma OrderedDisjoint(rs: seq<Range>, i: nat, j: nat)
    requires Ordered(rs) && i <= j <= |rs|
    ensures Disjoint(rs[i..j])
  {
    forall r, q, x: nat | r in rs[i..j] && q in rs[i..j] && Within(x, r) && Within(x, q)
      ensures r == q
    {
      var k :| i <= k < j && rs[k] == r;
      var l :| i <= l < j && rs[l] == q;
    }
  }

  /** An untested leaf: the bounds enclose the range exactly. */
  lemma TightGood(arena: Arena, rs: seq<Range>, i: nat, accept: BlockId, reject: BlockId, pick: Range -> nat)
    requires i < |rs| && TargetsOk(arena, rs, accept, reject)
    ensures Good(arena, Target(rs[i].filter, accept), rs, i, i + 1, rs[i].lo, rs[i].hi, accept, reject, pick, 0)
  {
    var id := Target(rs[i].filter, accept);
    assert rs[i] in rs;
    assert Leaf(arena, id) && Lowered(arena, id);
    assert rs[i..i + 1] == [rs[i]];
    forall x: nat | rs[i].lo <= x < rs[i].hi
      ensures Picks(arena, id, [rs[i]], x, accept, reject)
    {
      assert Within(x, rs[i]);
    }
    WeightedCons(arena, id, [rs[i]], pick);
    WeightedEmpty(arena, id, pick);
  }

  lemma ChainGood(arena: Arena, id: BlockId, rs: seq<Range>, i: nat, j: nat, b0: nat, b1: nat,
                  accept: BlockId, reject: BlockId, pick: Range -> nat, cost: nat)
    requires i < j <= |rs| && ChainOk(arena, id, rs[i..j], accept, reject, pick, cost)
    ensures Good(arena, id, rs, i, j, b0, b1, accept, reject, pick, cost)
  {
    if PicksInside(rs, pick) {
      SliceInside(rs, i, j, pick);
    }
  }

  lemma SplitPicks(arena: Arena, left: BlockId, right: BlockId, rs: seq<Range>, i: nat, m: nat, j: nat, cut: nat,
                   accept: BlockId, reject: BlockId, x: nat)
    requires WellFormed(arena) && left < |arena| && right < |arena|
    requires Ordered(rs) && i < m < j <= |rs| && InGap(rs, m, cut)
    requires x < cut ==> Picks(arena, left, rs[i..m], x, accept, reject)
    requires x >= cut ==> Picks(arena, right, rs[m..j], x, accept, reject)
    ensures Picks(arena + [SyscallEntry(Jge, cut, right, left)], |arena|, rs[i..j], x, accept, reject)
  {
    var b := SyscallEntry(Jge, cut, right, left);
    var bigger := arena + [b];
    assert bigger[|arena|] == b;
    ResolveExtended(arena, bigger, left, x);
    ResolveExtended(arena, bigger, right, x);
    assert rs[i..j] == rs[i..m] + rs[m..j];
    SplitSides(rs, i, m, j, cut);
  }

  /** The ranges on each side of a gap stay on their side of the cut. */
  lemma SplitSides(rs: seq<Range>, i: nat, m: nat, j: nat, cut: nat)
    requires Ordered(rs) && i < m < j <= |rs| && InGap(rs, m, cut)
    ensures forall r :: r in rs[i..m] ==> r.hi <= cut
    ensures forall r :: r in rs[m..j] ==> cut <= r.lo
  {
    forall k | i <= k < m
      ensures rs[k].hi <= cut
    {
      assert rs[k].hi <= rs[m - 1].hi;
    }
    forall k | m <= k < j
      ensures cut <= rs[k].lo
    {
      assert rs[m].lo <= rs[k].lo;
    }
  }

  lemma SplitWeighted(arena: Arena, left: BlockId, right: BlockId, rs: seq<Range>, i: nat, m: nat, j: nat, cut: nat,
                      pick: Range -> nat)
    requires WellFormed(arena) && left < |arena| && right < |arena|
    requires Ordered(rs) && i < m < j <= |rs| && InGap(rs, m, cut) && PicksInside(rs, pick)
    ensures Weighted(arena + [SyscallEntry(Jge, cut, right, left)], |arena|, rs[i..j], pick)
            <= Frequency(rs[i..j]) + Weighted(arena, left, rs[i..m], pick) + Weighted(arena, right, rs[m..j], pick)
  {
    var b := SyscallEntry(Jge, cut, right, left);
    var bigger := arena + [b];
    assert bigger[|arena|] == b;
    SplitSides(rs, i, m, j, cut);
    SliceInside(rs, i, m, pick);
    SliceInside(rs, m, j, pick);
    forall r | r in rs[i..m]
      ensures Tests(bigger, |arena|, pick(r)) <= 1 + Tests(arena, left, pick(r))
    {
      ResolveExtended(arena, bigger, left, pick(r));
    }
    forall r | r in rs[m..j]
      ensures Tests(bigger, |arena|, pick(r)) <= 1 + Tests(arena, right, pick(r))
    {
      ResolveExtended(arena, bigger, right, pick(r));
    }
    hide Tests, Weighted, Frequency;
    WeightedBound(bigger, |arena|, arena, left, rs[i..m], pick, 1);
    WeightedBound(bigger, |arena|, arena, right, rs[m..j], pick, 1);
    WeightedConcat(bigger, |arena|, rs[i..m], rs[m..j], pick);
    assert rs[i..j] == rs[i..m] + rs[m..j];
  }

  lemma SplitMatches(rs: seq<Range>, i: nat, m: nat, j: nat, b0: nat, cut: nat, b1: nat)
    requires Ordered(rs) && i < m < j <= |rs| && InGap(rs, m, cut) && Matches(rs, i, j, b0, b1)
    ensures Matches(rs, i, m, b0, cut) && Matches(rs, m, j, cut, b1)
  {
  }

  /** A JGE test in a gap joins two good subtrees into a good tree. */
  lemma SplitGood(arena: Arena, left: BlockId, right: BlockId, rs: seq<Range>, i: nat, m: nat, j: nat, b0: nat,
                  cut: nat, b1: nat,
                  accept: BlockId, reject: BlockId, pick: Range -> nat, leftCost: nat, rightCost: nat)
    requires Ordered(rs) && i < m < j <= |rs| && InGap(rs, m, cut)
    requires Good(arena, left, rs, i, m, b0, cut, accept, reject, pick, leftCost)
    requires Good(arena, right, rs, m, j, cut, b1, accept, reject, pick, rightCost)
    ensures Good(arena + [SyscallEntry(Jge, cut, right, left)], |arena|, rs, i, j, b0, b1, accept, reject, pick,
                 Frequency(rs[i..j]) + leftCost + rightCost)
  {
    var b := SyscallEntry(Jge, cut, right, left);
    WellFormedAppend(arena, b);
    LoweredExtended(arena, arena + [b], left);
    LoweredExtended(arena, arena + [b], right);
    assert (arena + [b])[|arena|] == b;
    forall x: nat | b0 <= x < b1
      ensures Picks(arena + [b], |arena|, rs[i..j], x, accept, reject)
    {
      SplitPicks(arena, left, right, rs, i, m, j, cut, accept, reject, x);
    }
    if PicksInside(rs, pick) {
      SplitWeighted(arena, left, right, rs, i, m, j, cut, pick);
    }
  }

  class BstBuilder {
    const ranges: seq<Range>
    const accept: BlockId
    const reject: BlockId
    ghost const pick: Range -> nat
    var accumulated: seq<nat>
    var arena: Arena
    var memo: map<(nat, nat), (nat, BlockId)>

    constructor (arena: Arena, ranges: seq<Range>, accept: BlockId, reject: BlockId, ghost pick: Range -> nat)
      requires Ordered(ranges) && TargetsOk(arena, ranges, accept, reject)
      ensures this.ranges == ranges && this.accept == accept && this.reject == reject && this.pick == pick
      ensures this.arena == arena && memo == map[] && Valid()
    {
      this.arena, this.ranges, this.accept, this.reject, this.pick := arena, ranges, accept, reject, pick;
      memo := map[];
      new;
      Accumulate();
    }

    ghost predicate Accumulated()
      reads this
    {
      |accumulated| == |ranges| && forall k :: 0 <= k < |ranges| ==> accumulated[k] == Frequency(ranges[..k + 1])
    }

    /** Every memo entry answers the one subproblem that its bounds identify. */
    ghost predicate Coherent(bounds: (nat, nat), entry: (nat, BlockId), arena: Arena) {
      forall i: nat, j: nat {:trigger Matches(ranges, i, j, bounds.0, bounds.1)} ::
        Matches(ranges, i, j, bounds.0, bounds.1) ==>
          && entry.0 == Opt(ranges, i, j, bounds.0, bounds.1)
          && Good(arena, entry.1, ranges, i, j, bounds.0, bounds.1, accept, reject, pick, entry.0)
    }

    ghost predicate Valid()
      reads this
    {
      && Ordered(ranges) && TargetsOk(arena, ranges, accept, reject)
      && Accumulated()
      && forall bounds :: bounds in memo ==> Coherent(bounds, memo[bounds], arena)
    }

    /** The loop that stores running totals in the ranges. */
    method Accumulate()
      modifies this`accumulated
      ensures Accumulated()
    {
      accumulated := [];
      var total := 0;
      assert Frequency(ranges[..0]) == 0;
      for k := 0 to |ranges|
        invariant |accumulated| == k && total == Frequency(ranges[..k])
        invariant forall l :: 0 <= l < k ==> accumulated[l] == Frequency(ranges[..l + 1])
      {
        PrefixCosts(ranges, k);
        total := total + ranges[k].frequency;
        accumulated := accumulated + [total];
      }
    }

    /** The cost of one comparison above `ranges[i..j]`, from the running totals. */
    function ComparisonCost(i: nat, j: nat): (c: nat)
      requires Accumulated() && i < j <= |ranges|
      reads this
      ensures c == Frequency(ranges[i..j])
    {
      PrefixCosts(ranges, i);
      assert ranges[..j] == ranges[..i] + ranges[i..j];
      SumConcat(ranges[..i], ranges[i..j], RangeFrequency);
      accumulated[j - 1] - (accumulated[i] - ranges[i].frequency)
    }

    /** Adds blocks to the arena; what is known about the memo stays true. */
    method Grow(bigger: Arena)
      requires Valid() && WellFormed(bigger) && arena <= bigger
      modifies this`arena
      ensures Valid() && arena == bigger
    {
      forall bounds | bounds in memo
        ensures Coherent(bounds, memo[bounds], bigger)
      {
        CoherentExtended(bounds, memo[bounds], arena, bigger);
      }
      arena := bigger;
    }

    lemma CoherentExtended(bounds: (nat, nat), entry: (nat, BlockId), arena: Arena, bigger: Arena)
      requires Coherent(bounds, entry, arena) && WellFormed(bigger) && arena <= bigger
      ensures Coherent(bounds, entry, bigger)
    {
      forall i: nat, j: nat {:trigger Matches(ranges, i, j, bounds.0, bounds.1)} | Matches(ranges, i, j, bounds.0, bounds.1)
        ensures Good(bigger, entry.1, ranges, i, j, bounds.0, bounds.1, accept, reject, pick, entry.0)
      {
        GoodExtended(arena, bigger, entry.1, ranges, i, j, bounds.0, bounds.1, accept, reject, pick, entry.0);
      }
    }

    method Remember(i: nat, j: nat, b0: nat, b1: nat, cost: nat, id: BlockId)
      requires Valid() && Matches(ranges, i, j, b0, b1) && cost == Opt(ranges, i, j, b0, b1)
      requires Good(arena, id, ranges, i, j, b0, b1, accept, reject, pick, cost)
      modifies this`memo
      ensures Valid() && memo == old(memo)[(b0, b1) := (cost, id)]
    {
      assert Coherent((b0, b1), (cost, id), arena) by {
        forall k: nat, l: nat | Matches(ranges, k, l, b0, b1)
          ensures k == i && l == j
        {
          MatchesUnique(ranges, i, j, k, l, b0, b1);
        }
      }
      memo := memo[(b0, b1) := (cost, id)];
    }

    /** _generate_syscall_bst: a cheapest tree for `ranges[i..j]` that decides every number in `[b0, b1)`. */
    method Generate(i: nat, j: nat, b0: nat, b1: nat) returns (cost: nat, id: BlockId)
      requires Valid() && Matches(ranges, i, j, b0, b1)
      modifies this`arena, this`memo
      ensures Valid() && old(arena) <= arena
      ensures cost == Opt(ranges, i, j, b0, b1)
      ensures Good(arena, id, ranges, i, j, b0, b1, accept, reject, pick, cost)
      decreases j - i, 3
    {
      if (b0, b1) in memo {
        assert Coherent((b0, b1), memo[(b0, b1)], arena);
        return memo[(b0, b1)].0, memo[(b0, b1)].1;
      }
      if j - i == 1 {
        cost, id := One(i, b0, b1);
      } else {
        cost, id := Linear(i, j, b0, b1);
        cost, id := Search(i, j, b0, b1, cost, id);
      }
      Remember(i, j, b0, b1, cost, id);
    }

    method One(i: nat, b0: nat, b1: nat) returns (cost: nat, id: BlockId)
      requires Valid() && Matches(ranges, i, i + 1, b0, b1)
      modifies this`arena
      ensures Valid() && old(arena) <= arena
      ensures cost == Opt(ranges, i, i + 1, b0, b1)
      ensures Good(arena, id, ranges, i, i + 1, b0, b1, accept, reject, pick, cost)
    {
      var r := ranges[i];
      var action := Target(r.filter, accept);
      if b0 == r.lo && b1 == r.hi {
        TightGood(arena, ranges, i, accept, reject, pick);
        return 0, action;
      }
      assert r in ranges;
      OneGood(arena, ranges, i, b0, b1, accept, reject, pick);
      Grow(arena + SingleRange(|arena|, r, action, reject, 0, None));
      cost, id := SingleCost(r, 0, None) * r.frequency, |arena| - 1;
    }

    method Linear(i: nat, j: nat, b0: nat, b1: nat) returns (cost: nat, id: BlockId)
      requires Valid() && Matches(ranges, i, j, b0, b1)
      modifies this`arena
      ensures Valid() && old(arena) <= arena
      ensures cost == LinearCost(ranges[i..j])
      ensures Good(arena, id, ranges, i, j, b0, b1, accept, reject, pick, cost)
    {
      OrderedDisjoint(ranges, i, j);
      var bigger;
      cost, bigger, id := CompileRangesLinear(arena, ranges[i..j], accept, reject, pick);
      ChainGood(bigger, id, ranges, i, j, b0, b1, accept, reject, pick, cost);
      Grow(bigger);
    }

    /** The loops over all partitions of the interval. */
    method Search(i: nat, j: nat, b0: nat, b1: nat, linear: nat, chain: BlockId) returns (cost: nat, id: BlockId)
      requires Valid() && i < j <= |ranges| && Matches(ranges, i, j, b0, b1)
      requires Good(arena, chain, ranges, i, j, b0, b1, accept, reject, pick, linear)
      modifies this`arena, this`memo
      ensures Valid() && old(arena) <= arena
      ensures cost == TryFrom(ranges, i, j, b0, b1, i, linear)
      ensures Good(arena, id, ranges, i, j, b0, b1, accept, reject, pick, cost)
      decreases j - i, 2
    {
      hide Good, Opt, TryCuts, LinearCost, Coherent, Accumulated, TargetsOk, Ordered, Matches;
      cost, id := linear, chain;
      ghost var goal := TryFrom(ranges, i, j, b0, b1, i, linear);
      for m := i to j
        invariant Valid() && old(arena) <= arena
        invariant Good(arena, id, ranges, i, j, b0, b1, accept, reject, pick, cost)
        invariant TryFrom(ranges, i, j, b0, b1, m, cost) == goal
      {
        cost, id := Partition(i, j, b0, b1, m, cost, id);
      }
    }

    /** The inner loop over the candidates for a split in front of range `m`. */
    method Partition(i: nat, j: nat, b0: nat, b1: nat, m: nat, best: nat, bestId: BlockId)
      returns (cost: nat, id: BlockId)
      requires Valid() && Matches(ranges, i, j, b0, b1) && i <= m < j
      requires Good(arena, bestId, ranges, i, j, b0, b1, accept, reject, pick, best)
      modifies this`arena, this`memo
      ensures Valid() && old(arena) <= arena
      ensures cost == TryCuts(ranges, i, j, b0, b1, m, Cuts(ranges, i, m), best)
      ensures Good(arena, id, ranges, i, j, b0, b1, accept, reject, pick, cost)
      decreases j - i, 1
    {
      var candidates := Cuts(ranges, i, m);
      cost, id := best, bestId;
      ghost var goal := TryCuts(ranges, i, j, b0, b1, m, candidates, best);
      for c := 0 to |candidates|
        invariant Valid() && old(arena) <= arena
        invariant Good(arena, id, ranges, i, j, b0, b1, accept, reject, pick, cost)
        invariant TryCuts(ranges, i, j, b0, b1, m, candidates[c..], cost) == goal
      {
        cost, id := Candidate(i, j, b0, b1, m, candidates[c], cost, id);
        assert candidates[c..][1..] == candidates[c + 1..];
      }
    }

    /** One turn of that loop: keep the split at `cut` if it is strictly cheaper. */
    method Candidate(i: nat, j: nat, b0: nat, b1: nat, m: nat, cut: nat, best: nat, bestId: BlockId)
      returns (cost: nat, id: BlockId)
      requires Valid() && Matches(ranges, i, j, b0, b1) && i <= m < j && cut in Cuts(ranges, i, m)
      requires Good(arena, bestId, ranges, i, j, b0, b1, accept, reject, pick, best)
      modifies this`arena, this`memo
      ensures Valid() && old(arena) <= arena
      ensures cost == TryCut(ranges, i, j, b0, b1, m, cut, best)
      ensures Good(arena, id, ranges, i, j, b0, b1, accept, reject, pick, cost)
      decreases j - i, 0
    {
      if !(b0 < cut < b1) {
        return best, bestId;
      }
      if !(i < m < j) {
        return best, bestId;
      }
      assert InGap(ranges, m, cut);
      var split, splitId := Join(i, m, j, b0, cut, b1);
      TryCutIs(ranges, i, j, b0, b1, m, cut, best);
      if split < best {
        cost, id := split, splitId;
      } else {
        GoodExtended(old(arena), arena, bestId, ranges, i, j, b0, b1, accept, reject, pick, best);
        cost, id := best, bestId;
      }
    }

    /** Builds the subtrees on both sides of `cut` and the comparison above them. */
    method Join(i: nat, m: nat, j: nat, b0: nat, cut: nat, b1: nat) returns (cost: nat, id: BlockId)
      requires Valid() && Matches(ranges, i, j, b0, b1) && i < m < j <= |ranges| && InGap(ranges, m, cut)
      modifies this`arena, this`memo
      ensures Valid() && old(arena) <= arena
      ensures cost == SplitCost(ranges, i, j, b0, b1, m, cut)
      ensures Good(arena, id, ranges, i, j, b0, b1, accept, reject, pick, cost)
      decreases j - i, 0, 0
    {
      hide Good, Opt, Coherent, Accumulated, TargetsOk, Ordered, Matches;
      SplitMatches(ranges, i, m, j, b0, cut, b1);
      var leftCost, left := Generate(i, m, b0, cut);
      ghost var before := arena;
      var rightCost, right := Generate(m, j, cut, b1);
      GoodExtended(before, arena, left, ranges, i, m, b0, cut, accept, reject, pick, leftCost);
      SplitGood(arena, left, right, ranges, i, m, j, b0, cut, b1, accept, reject, pick, leftCost, rightCost);
      cost, id := ComparisonCost(i, j) + leftCost + rightCost, |arena|;
      Grow(arena + [SyscallEntry(Jge, cut, right, left)]);
    }
  }

  lemma OneGood(arena: Arena, rs: seq<Range>, i: nat, b0: nat, b1: nat, accept: BlockId, reject: BlockId,
                pick: Range -> nat)
    requires i < |rs| && TargetsOk(arena, rs, accept, reject)
    ensures var bigger := arena + SingleRange(|arena|, rs[i], Target(rs[i].filter, accept), reject, 0, None);
            && WellFormed(bigger)
            && Good(bigger, |bigger| - 1, rs, i, i + 1, b0, b1, accept, reject, pick, SingleCost(rs[i], 0, None) * rs[i].frequency)
  {
    var r := rs[i];
    var action := Target(r.filter, accept);
    var bigger := arena + SingleRange(|arena|, r, action, reject, 0, None);
    var top := |bigger| - 1;
    assert r in rs;
    assert rs[i..i + 1] == [r];
    SingleRangeLowered(arena, r, action, reject, 0, None);
    forall x: nat | b0 <= x < b1
      ensures Picks(bigger, top, [r], x, accept, reject)
    {
      SingleRangeDecides(arena, r, action, reject, 0, None, x);
    }
    if PicksInside(rs, pick) {
      SingleRangeDecides(arena, r, action, reject, 0, None, pick(r));
      OneWeighted(bigger, top, r, pick, SingleCost(r, 0, None));
    }
  }

  lemma {:induction false} OneWeighted(arena: Arena, id: BlockId, r: Range, pick: Range -> nat, c: nat)
    requires Tests(arena, id, pick(r)) <= c
    ensures Weighted(arena, id, [r], pick) <= c * r.frequency
  {
    hide Tests;
    WeightedCons(arena, id, [r], pick);
    WeightedEmpty(arena, id, pick);
    MulBound(r.frequency, Tests(arena, id, pick(r)), c, 0);
  }

  const TOP: nat := TWO64 - 1

  /** `cost` is what the recurrence gives; no tree that is searched is cheaper, and no decision tree at all when every
      range is told apart by one test. */
  ghost predicate Minimal(cost: nat, ranges: seq<Range>)
    requires |ranges| > 0
  {
    && cost == Opt(ranges, 0, |ranges|, 0, TOP)
    && forall t: Tree :: IsTree(t, ranges, 0, |ranges|, 0, TOP) && (Searched(t, ranges, 0, |ranges|) || OneTestEach(ranges)) ==>
         cost <= TreeCost(t, ranges, 0, |ranges|)
  }

  /** The whole search: a tree of minimal cost that sends every syscall number to the right action. */
  method CompileBst(arena: Arena, ranges: seq<Range>, accept: BlockId, reject: BlockId, ghost pick: Range -> nat)
    returns (cost: nat, bigger: Arena, id: BlockId)
    requires Ordered(ranges) && |ranges| > 0 && TargetsOk(arena, ranges, accept, reject)
    requires forall r :: r in ranges ==> r.hi <= TWO32
    ensures WellFormed(bigger) && arena <= bigger && id < |bigger|
    ensures Lowered(bigger, id) && bigger[id].SyscallEntry?
    ensures forall x: nat :: x < TWO32 ==> Picks(bigger, id, ranges, x, accept, reject)
    ensures PicksInside(ranges, pick) ==> Weighted(bigger, id, ranges, pick) <= cost
    ensures Minimal(cost, ranges)
  {
    var n := |ranges|;
    var builder := new BstBuilder(arena, ranges, accept, reject, pick);
    assert ranges[n - 1] in ranges;
    cost, id := builder.Generate(0, n, 0, TOP);
    bigger := builder.arena;
    assert ranges[0..n] == ranges;
    forall t: Tree | IsTree(t, ranges, 0, n, 0, TOP) && (Searched(t, ranges, 0, n) || OneTestEach(ranges))
      ensures cost <= TreeCost(t, ranges, 0, n)
    {
      OptIsLowerBound(t, ranges, 0, n, 0, TOP);
    }
  }
}
