/** Decision blocks on the syscall number: the test for one range and the linear
    chain of tests of tools/compiler.py. */
module RangeTests {
  import opened Bits
  import opened Machine
  import opened Blocks
  import opened Sorting
  import opened Ranges

  /** The block that the tests on syscall number `x` lead to. */
  ghost function Resolve(arena: Arena, id: BlockId, x: nat): BlockId {
    if id < |arena| && arena[id].SyscallEntry? && arena[id].jt < id && arena[id].jf < id then
      Resolve(arena, if Test(arena[id].op, x, arena[id].number) then arena[id].jt else arena[id].jf, x)
    else id
  }

  /** How many syscall number tests are met on the way. */
  ghost function Tests(arena: Arena, id: BlockId, x: nat): nat {
    if id < |arena| && arena[id].SyscallEntry? && arena[id].jt < id && arena[id].jf < id then
      1 + Tests(arena, if Test(arena[id].op, x, arena[id].number) then arena[id].jt else arena[id].jf, x)
    else 0
  }

  lemma {:induction false} ResolveExtended(arena: Arena, bigger: Arena, id: BlockId, x: nat)
    requires WellFormed(arena) && arena <= bigger && id < |arena|
    ensures Resolve(bigger, id, x) == Resolve(arena, id, x) && Resolve(arena, id, x) <= id
    ensures Tests(bigger, id, x) == Tests(arena, id, x)
  {
    var b := arena[id];
    assert bigger[id] == b && BlockOk(b, id);
    if b.SyscallEntry? {
      ResolveExtended(arena, bigger, if Test(b.op, x, b.number) then b.jt else b.jf, x);
    }
  }

  /** With the syscall number in the accumulator a block means what it resolves to. */
  lemma {:induction false} ResolveDenotes(arena: Arena, id: BlockId, mem: seq<Byte>, x: nat)
    requires WellFormed(arena) && id < |arena|
    ensures Resolve(arena, id, x) < |arena|
    ensures Denote(arena, id, mem, x) == Denote(arena, Resolve(arena, id, x), mem, x)
  {
    var b := arena[id];
    if b.SyscallEntry? {
      ResolveDenotes(arena, if Test(b.op, x, b.number) then b.jt else b.jf, mem, x);
    }
  }

  predicate Leaf(arena: Arena, id: BlockId) {
    id < |arena| && !IsBranch(arena[id])
  }

  // ----- _compile_single_range -----

  function SingleCost(r: Range, lower: nat, upper: Option<nat>): nat {
    if r.hi - r.lo == 1 || r.lo == lower || Some(r.hi) == upper then 1 else 2
  }

  /** The blocks that test for `r`, the last one being the entry; no upper bound stands for 1e99. */
  function SingleRange(base: BlockId, r: Range, action: BlockId, reject: BlockId, lower: nat, upper: Option<nat>)
    : (blocks: seq<Block>)
    ensures 1 <= |blocks| <= 2
  {
    if r.hi - r.lo == 1 then [SyscallEntry(Jeq, r.lo, action, reject)]
    else if r.lo == lower then [SyscallEntry(Jge, r.hi, reject, action)]
    else if Some(r.hi) == upper then [SyscallEntry(Jge, r.lo, action, reject)]
    else [SyscallEntry(Jge, r.hi, reject, action), SyscallEntry(Jge, r.lo, base, reject)]
  }

  /** For every number within the bounds, the test separates the range from the rest at no more than its cost. */
  lemma {:induction false} SingleRangeDecides(arena: Arena, r: Range, action: BlockId, reject: BlockId, lower: nat,
                                              upper: Option<nat>, x: nat)
    requires WellFormed(arena) && action < |arena| && reject < |arena|
    requires lower <= r.lo < r.hi && (upper.Some? ==> r.hi <= upper.value)
    requires lower <= x && (upper.Some? ==> x < upper.value)
    ensures var bigger := arena + SingleRange(|arena|, r, action, reject, lower, upper);
            var next := if Within(x, r) then action else reject;
            && WellFormed(bigger)
            && Resolve(bigger, |bigger| - 1, x) == Resolve(arena, next, x)
            && Tests(bigger, |bigger| - 1, x) <= SingleCost(r, lower, upper) + Tests(arena, next, x)
  {
    var blocks := SingleRange(|arena|, r, action, reject, lower, upper);
    var bigger := arena + blocks;
    WellFormedAppend(arena, blocks[0]);
    if |blocks| == 2 {
      WellFormedAppend(arena + [blocks[0]], blocks[1]);
      assert arena + [blocks[0]] + [blocks[1]] == bigger;
    }
    assert bigger[|arena|] == blocks[0];
    assert |blocks| == 2 ==> bigger[|arena| + 1] == blocks[1];
    ResolveExtended(arena, bigger, action, x);
    ResolveExtended(arena, bigger, reject, x);
  }

  lemma SingleRangeLowered(arena: Arena, r: Range, action: BlockId, reject: BlockId, lower: nat, upper: Option<nat>)
    requires WellFormed(arena) && action < |arena| && reject < |arena|
    requires Lowered(arena, action) && Lowered(arena, reject)
    ensures var bigger := arena + SingleRange(|arena|, r, action, reject, lower, upper);
            WellFormed(bigger) && Lowered(bigger, |bigger| - 1) && bigger[|bigger| - 1].SyscallEntry?
  {
    var blocks := SingleRange(|arena|, r, action, reject, lower, upper);
    var one := arena + [blocks[0]];
    WellFormedAppend(arena, blocks[0]);
    LoweredExtended(arena, one, action);
    LoweredExtended(arena, one, reject);
    assert one[|arena|] == blocks[0] && Lowered(one, |arena|);
    if |blocks| == 2 {
      var two := one + [blocks[1]];
      WellFormedAppend(one, blocks[1]);
      LoweredExtended(one, two, |arena|);
      LoweredExtended(one, two, reject);
      assert two == arena + blocks && two[|arena| + 1] == blocks[1];
    } else {
      assert one == arena + blocks;
    }
  }

  // ----- _compile_ranges_linear -----

  function ByFrequency(r: Range): int { r.frequency }

  /** The cost of testing for the ranges of `s`, the last one first. */
  function ChainCost(s: seq<Range>): nat {
    if s == [] then 0
    else ChainCost(s[..|s| - 1]) + Frequency(s) * SingleCost(s[|s| - 1], 0, None)
  }

  function LinearCost(s: seq<Range>): nat {
    ChainCost(Sort(s, ByFrequency))
  }

  /** Block `id` sends `x` to the action of the range that holds it, and to `reject` if there is none. */
  ghost predicate Picks(arena: Arena, id: BlockId, s: seq<Range>, x: nat, accept: BlockId, reject: BlockId) {
    && (forall r :: r in s && Within(x, r) ==> Resolve(arena, id, x) == Target(r.filter, accept))
    && ((forall r :: r in s ==> !Within(x, r)) ==> Resolve(arena, id, x) == reject)
  }

  ghost predicate Disjoint(s: seq<Range>) {
    forall r, q, x: nat :: r in s && q in s && Within(x, r) && Within(x, q) ==> r == q
  }

  ghost predicate TargetsOk(arena: Arena, s: seq<Range>, accept: BlockId, reject: BlockId) {
    && WellFormed(arena) && Leaf(arena, accept) && Leaf(arena, reject)
    && forall r :: r in s ==> r.lo < r.hi && FilterOk(arena, r.filter)
  }

  ghost function TestLoad(arena: Arena, id: BlockId, pick: Range -> nat): Range -> nat {
    (r: Range) => r.frequency * Tests(arena, id, pick(r))
  }

  /** The frequency-weighted number of tests met when range `r` is asked for number `pick(r)`. */
  ghost function Weighted(arena: Arena, id: BlockId, s: seq<Range>, pick: Range -> nat): nat {
    Sum(s, TestLoad(arena, id, pick))
  }

  ghost predicate PicksInside(s: seq<Range>, pick: Range -> nat) {
    forall r :: r in s ==> Within(pick(r), r)
  }

  lemma MulBound(f: nat, t: nat, c: nat, u: nat)
    requires t <= c + u
    ensures f * t <= f * c + f * u
  {
  }

  lemma MulSum(f: nat, g: nat, c: nat)
    ensures (f + g) * c == f * c + g * c
  {
  }

  /** If every path gets at most `c` tests longer, the weighted total grows by at most `c` times the frequency. */
  lemma {:induction false} WeightedBound(a1: Arena, id1: BlockId, a2: Arena, id2: BlockId, s: seq<Range>,
                                         pick: Range -> nat, c: nat)
    requires forall r :: r in s ==> Tests(a1, id1, pick(r)) <= c + Tests(a2, id2, pick(r))
    ensures Weighted(a1, id1, s, pick) <= Frequency(s) * c + Weighted(a2, id2, s, pick)
  {
    hide Tests;
    if s != [] {
      WeightedBound(a1, id1, a2, id2, s[1..], pick, c);
      WeightedCons(a1, id1, s, pick);
      WeightedCons(a2, id2, s, pick);
      var f := s[0].frequency;
      MulBound(f, Tests(a1, id1, pick(s[0])), c, Tests(a2, id2, pick(s[0])));
      MulSum(f, Frequency(s[1..]), c);
    }
  }

  lemma {:induction false} WeightedCons(arena: Arena, id: BlockId, s: seq<Range>, pick: Range -> nat)
    requires s != []
    ensures Weighted(arena, id, s, pick) == s[0].frequency * Tests(arena, id, pick(s[0])) + Weighted(arena, id, s[1..], pick)
    ensures Frequency(s) == s[0].frequency + Frequency(s[1..])
  {
    hide Tests;
  }

  lemma WeightedConcat(arena: Arena, id: BlockId, s: seq<Range>, t: seq<Range>, pick: Range -> nat)
    ensures Weighted(arena, id, s + t, pick) == Weighted(arena, id, s, pick) + Weighted(arena, id, t, pick)
    ensures Frequency(s + t) == Frequency(s) + Frequency(t)
  {
    hide TestLoad;
    SumConcat(s, t, TestLoad(arena, id, pick));
    SumConcat(s, t, RangeFrequency);
  }

  ghost predicate ChainOk(arena: Arena, id: BlockId, s: seq<Range>, accept: BlockId, reject: BlockId,
                          pick: Range -> nat, cost: nat) {
    && WellFormed(arena) && id < |arena| && Lowered(arena, id)
    && (s != [] ==> arena[id].SyscallEntry?)
    && (forall x: nat :: Picks(arena, id, s, x, accept, reject))
    && (PicksInside(s, pick) ==> Weighted(arena, id, s, pick) <= cost)
  }

  lemma ChainStepPicks(arena: Arena, id: BlockId, s: seq<Range>, k: nat, accept: BlockId, reject: BlockId, x: nat)
    requires k < |s| && Disjoint(s) && TargetsOk(arena, s, accept, reject)
    requires id < |arena| && Picks(arena, id, s[..k], x, accept, reject)
    ensures var bigger := arena + SingleRange(|arena|, s[k], Target(s[k].filter, accept), id, 0, None);
            Picks(bigger, |bigger| - 1, s[..k + 1], x, accept, reject)
  {
    var r := s[k];
    var action := Target(r.filter, accept);
    assert r in s;
    SingleRangeDecides(arena, r, action, id, 0, None, x);
    assert Resolve(arena, action, x) == action;
    assert s[..k + 1] == s[..k] + [r];
    if Within(x, r) {
      forall q | q in s[..k + 1] && Within(x, q)
        ensures q == r
      {
        assert q in s;
      }
    }
  }

  lemma ChainStepWeighted(arena: Arena, id: BlockId, s: seq<Range>, k: nat, accept: BlockId, reject: BlockId,
                          pick: Range -> nat, cost: nat)
    requires k < |s| && TargetsOk(arena, s, accept, reject) && id < |arena|
    requires PicksInside(s[..k + 1], pick) && Weighted(arena, id, s[..k], pick) <= cost
    ensures var bigger := arena + SingleRange(|arena|, s[k], Target(s[k].filter, accept), id, 0, None);
            Weighted(bigger, |bigger| - 1, s[..k + 1], pick) <= cost + Frequency(s[..k + 1]) * SingleCost(s[k], 0, None)
  {
    var r, c := s[k], SingleCost(s[k], 0, None);
    var action := Target(r.filter, accept);
    var bigger := arena + SingleRange(|arena|, r, action, id, 0, None);
    var top := |bigger| - 1;
    assert r in s && r in s[..k + 1];
    forall q | q in s[..k]
      ensures Tests(bigger, top, pick(q)) <= c + Tests(arena, id, pick(q))
    {
      SingleRangeDecides(arena, r, action, id, 0, None, pick(q));
    }
    hide Tests, Weighted, Frequency, SingleCost;
    WeightedBound(bigger, top, arena, id, s[..k], pick, c);
    assert Tests(bigger, top, pick(r)) <= c by {
      SingleRangeDecides(arena, r, action, id, 0, None, pick(r));
    }
    ChainStepTotal(bigger, top, s[..k], r, pick, c);
    assert s[..k + 1] == s[..k] + [r];
  }

  lemma {:induction false} ChainStepTotal(arena: Arena, id: BlockId, s: seq<Range>, r: Range, pick: Range -> nat,
                                          c: nat)
    requires Tests(arena, id, pick(r)) <= c
    ensures Weighted(arena, id, s + [r], pick) - Weighted(arena, id, s, pick) <= Frequency(s + [r]) * c - Frequency(s) * c
  {
    WeightedConcat(arena, id, s, [r], pick);
    WeightedCons(arena, id, [r], pick);
    hide Tests, Weighted, Frequency;
    MulBound(r.frequency, Tests(arena, id, pick(r)), c, 0);
    assert Weighted(arena, id, [r][1..], pick) == 0 && Frequency([r][1..]) == 0 by { WeightedEmpty(arena, id, pick); }
    MulSum(Frequency(s), r.frequency, c);
  }

  lemma WeightedEmpty(arena: Arena, id: BlockId, pick: Range -> nat)
    ensures Weighted(arena, id, [], pick) == 0 && Frequency([]) == 0
  {
  }

  lemma ChainStep(arena: Arena, id: BlockId, s: seq<Range>, k: nat, accept: BlockId, reject: BlockId,
                  pick: Range -> nat, cost: nat)
    requires k < |s| && Disjoint(s) && TargetsOk(arena, s, accept, reject)
    requires ChainOk(arena, id, s[..k], accept, reject, pick, cost)
    ensures var bigger := arena + SingleRange(|arena|, s[k], Target(s[k].filter, accept), id, 0, None);
            && ChainOk(bigger, |bigger| - 1, s[..k + 1], accept, reject, pick, cost + Frequency(s[..k + 1]) * SingleCost(s[k], 0, None))
            && TargetsOk(bigger, s, accept, reject)
  {
    var r := s[k];
    var bigger := arena + SingleRange(|arena|, r, Target(r.filter, accept), id, 0, None);
    var top := |bigger| - 1;
    assert r in s;
    SingleRangeLowered(arena, r, Target(r.filter, accept), id, 0, None);
    var longer := s[..k + 1];
    forall x: nat {:trigger Picks(bigger, top, longer, x, accept, reject)}
      ensures Picks(bigger, top, longer, x, accept, reject)
    {
      ChainStepPicks(arena, id, s, k, accept, reject, x);
    }
    if PicksInside(s[..k + 1], pick) {
      assert PicksInside(s[..k], pick) by {
        forall q | q in s[..k]
          ensures Within(pick(q), q)
        {
          assert q in s[..k + 1];
        }
      }
      ChainStepWeighted(arena, id, s, k, accept, reject, pick, cost);
    }
    forall q | q in s
      ensures FilterOk(bigger, q.filter)
    {
      assert FilterOk(arena, q.filter);
    }
  }

  /** The loop, over ranges already sorted. */
  method CompileChain(arena: Arena, sorted: seq<Range>, accept: BlockId, reject: BlockId, ghost pick: Range -> nat)
    returns (cost: nat, bigger: Arena, id: BlockId)
    requires Disjoint(sorted) && TargetsOk(arena, sorted, accept, reject)
    ensures arena <= bigger
    ensures ChainOk(bigger, id, sorted, accept, reject, pick, cost)
    ensures cost == ChainCost(sorted)
    ensures |sorted| > 0 ==> |arena| <= id
  {
    hide ChainOk, Disjoint, TargetsOk, Frequency, ChainCost, SingleRange;
    var accumulated := 0;
    cost, bigger, id := 0, arena, reject;
    EmptyChain(arena, sorted, accept, reject, pick);
    for k := 0 to |sorted|
      invariant arena <= bigger
      invariant k > 0 ==> |arena| <= id
      invariant ChainOk(bigger, id, sorted[..k], accept, reject, pick, cost)
      invariant TargetsOk(bigger, sorted, accept, reject)
      invariant accumulated == Frequency(sorted[..k])
      invariant cost == ChainCost(sorted[..k])
    {
      var r := sorted[k];
      ChainStep(bigger, id, sorted, k, accept, reject, pick, cost);
      PrefixCosts(sorted, k);
      accumulated := accumulated + r.frequency;
      cost := cost + accumulated * SingleCost(r, 0, None);
      bigger := bigger + SingleRange(|bigger|, r, Target(r.filter, accept), id, 0, None);
      id := |bigger| - 1;
    }
    assert sorted[..|sorted|] == sorted;
  }

  lemma EmptyChain(arena: Arena, s: seq<Range>, accept: BlockId, reject: BlockId, pick: Range -> nat)
    requires TargetsOk(arena, s, accept, reject)
    ensures ChainOk(arena, reject, s[..0], accept, reject, pick, 0)
    ensures Frequency(s[..0]) == 0 && ChainCost(s[..0]) == 0
  {
  }

  /** Least frequent range first, so that the most frequent one is tested first; the
      reported cost bounds the weighted tests whatever numbers are asked for. */
  method CompileRangesLinear(arena: Arena, rs: seq<Range>, accept: BlockId, reject: BlockId, ghost pick: Range -> nat)
    returns (cost: nat, bigger: Arena, id: BlockId)
    requires Disjoint(rs) && TargetsOk(arena, rs, accept, reject)
    ensures arena <= bigger
    ensures ChainOk(bigger, id, rs, accept, reject, pick, cost)
    ensures cost == LinearCost(rs)
    ensures |rs| > 0 ==> |arena| <= id
  {
    var sorted := Sort(rs, ByFrequency);
    SortMembers(rs, ByFrequency);
    cost, bigger, id := CompileChain(arena, sorted, accept, reject, pick);
    SameRanges(bigger, id, sorted, rs, accept, reject, pick, cost);
  }

  lemma PrefixCosts(s: seq<Range>, k: nat)
    requires k < |s|
    ensures Frequency(s[..k + 1]) == Frequency(s[..k]) + s[k].frequency
    ensures ChainCost(s[..k + 1]) == ChainCost(s[..k]) + Frequency(s[..k + 1]) * SingleCost(s[k], 0, None)
  {
    assert s[..k + 1] == s[..k] + [s[k]];
    SumConcat(s[..k], [s[k]], RangeFrequency);
    assert s[..k + 1][..k] == s[..k];
  }

  lemma {:induction false} SameRanges(arena: Arena, id: BlockId, sorted: seq<Range>, rs: seq<Range>, accept: BlockId,
                                      reject: BlockId, pick: Range -> nat, cost: nat)
    requires sorted == Sort(rs, ByFrequency)
    requires ChainOk(arena, id, sorted, accept, reject, pick, cost)
    ensures ChainOk(arena, id, rs, accept, reject, pick, cost)
  {
    SortMembers(rs, ByFrequency);
    SumSort(rs, ByFrequency, TestLoad(arena, id, pick));
    forall x: nat
      ensures Picks(arena, id, rs, x, accept, reject)
    {
      assert Picks(arena, id, sorted, x, accept, reject);
    }
  }
}
