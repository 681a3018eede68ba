/** Syscall ranges of tools/compiler.py: merging entries into ranges, testing for one
    range, and the linear chain of tests. */
module Ranges {
  import opened Bits
  import opened Machine
  import opened Blocks
  import opened Sorting

  datatype Entry = Entry(number: U32, frequency: nat, filter: Option<BlockId>)

  datatype Range = Range(lo: nat, hi: nat, frequency: nat, filter: Option<BlockId>)

  predicate Within(x: nat, r: Range) {
    r.lo <= x < r.hi
  }

  function Target(filter: Option<BlockId>, accept: BlockId): BlockId {
    if filter.Some? then filter.value else accept
  }

  predicate FilterOk(arena: Arena, f: Option<BlockId>) {
    f.Some? ==> f.value < |arena| && !IsBranch(arena[f.value])
  }

  /** What Python's `==` compares: nothing, or the instruction list of the block. */
  function FilterCode(arena: Arena, f: Option<BlockId>): Option<Program> {
    if f.None? || f.value >= |arena| || IsBranch(arena[f.value]) then None
    else Some(Instructions(arena[f.value]))
  }

  // ----- _convert_to_ranges -----

  function ByNumber(e: Entry): int { e.number }

  function EntryFrequency(e: Entry): nat { e.frequency }

  function RangeFrequency(r: Range): nat { r.frequency }

  function Frequency(rs: seq<Range>): nat { Sum(rs, RangeFrequency) }

  /** Nonempty ranges in increasing order without overlap. */
  ghost predicate Ordered(rs: seq<Range>) {
    && (forall k :: 0 <= k < |rs| ==> rs[k].lo < rs[k].hi)
    && (forall k, l :: 0 <= k < l < |rs| ==> rs[k].hi <= rs[l].lo)
  }

  /** No two touching ranges have the same filter. */
  ghost predicate Maximal(arena: Arena, rs: seq<Range>) {
    forall k, l :: 0 <= k < l < |rs| && rs[k].hi == rs[l].lo ==> FilterCode(arena, rs[k].filter) != FilterCode(arena, rs[l].filter)
  }

  ghost predicate Represents(arena: Arena, r: Range, e: Entry) {
    Within(e.number, r) && FilterCode(arena, r.filter) == FilterCode(arena, e.filter)
  }

  ghost predicate Represented(arena: Arena, rs: seq<Range>, e: Entry) {
    exists r :: r in rs && Represents(arena, r, e)
  }

  ghost predicate Named(x: nat, es: seq<Entry>) {
    exists e :: e in es && e.number == x
  }

  /** The ranges hold exactly the numbers of the entries, each with its entry's filter. */
  ghost predicate Covers(arena: Arena, rs: seq<Range>, es: seq<Entry>) {
    && (forall e {:trigger Represented(arena, rs, e)} :: e in es ==> Represented(arena, rs, e))
    && (forall r, x: nat :: r in rs && Within(x, r) ==> Named(x, es))
  }

  ghost predicate Distinct(es: seq<Entry>) {
    forall i, j :: 0 <= i < j < |es| ==> es[i].number != es[j].number
  }

  ghost predicate StrictlyIncreasing(es: seq<Entry>) {
    forall i, j :: 0 <= i < j < |es| ==> es[i].number < es[j].number
  }

  /** A run of consecutive numbers with one filter. */
  ghost predicate IsRun(arena: Arena, es: seq<Entry>, lower: nat, upper: nat) {
    && lower < upper <= |es|
    && forall i :: lower <= i < upper ==>
         es[i].number == es[lower].number + (i - lower) && FilterCode(arena, es[i].filter) == FilterCode(arena, es[lower].filter)
  }

  /** The run cannot be extended to the right. */
  ghost predicate EndsRun(arena: Arena, es: seq<Entry>, upper: nat) {
    0 < upper < |es| && es[upper - 1].number + 1 == es[upper].number ==>
      FilterCode(arena, es[upper - 1].filter) != FilterCode(arena, es[upper].filter)
  }

  function RunRange(es: seq<Entry>, lower: nat, upper: nat): Range
    requires lower < upper <= |es|
  {
    Range(es[lower].number, es[upper - 1].number + 1, Sum(es[lower..upper], EntryFrequency), es[lower].filter)
  }

  /** `rs` are the ranges of the first `lower` entries. */
  ghost predicate Merged(arena: Arena, rs: seq<Range>, es: seq<Entry>, lower: nat) {
    && lower <= |es|
    && Ordered(rs) && Maximal(arena, rs)
    && Covers(arena, rs, es[..lower])
    && Frequency(rs) == Sum(es[..lower], EntryFrequency)
    && (rs == [] <==> lower == 0)
    && (rs != [] ==> rs[|rs| - 1].hi == es[lower - 1].number + 1)
    && (rs != [] ==> FilterCode(arena, rs[|rs| - 1].filter) == FilterCode(arena, es[lower - 1].filter))
    && (forall r :: r in rs ==> r.hi <= TWO32 && SomeFilterOf(r, es))
  }

  ghost predicate SomeFilterOf(r: Range, es: seq<Entry>) {
    exists e :: e in es && e.filter == r.filter
  }

  lemma CoversRun(arena: Arena, rs: seq<Range>, es: seq<Entry>, lower: nat, upper: nat)
    requires IsRun(arena, es, lower, upper)
    requires Covers(arena, rs, es[..lower])
    ensures Covers(arena, rs + [RunRange(es, lower, upper)], es[..upper])
  {
    var run := RunRange(es, lower, upper);
    var longer := rs + [run];
    forall e | e in es[..upper]
      ensures Represented(arena, longer, e)
    {
      var i :| 0 <= i < upper && es[i] == e;
      if i < lower {
        assert e in es[..lower] && Represented(arena, rs, e);
        var r :| r in rs && Represents(arena, r, e);
        assert r in longer;
      } else {
        assert run in longer && Represents(arena, run, e);
      }
    }
    forall r, x: nat | r in longer && Within(x, r)
      ensures Named(x, es[..upper])
    {
      if r in rs {
        assert Named(x, es[..lower]);
        var e :| e in es[..lower] && e.number == x;
        assert e in es[..upper];
      } else {
        var e := es[lower + (x - run.lo)];
        assert e in es[..upper] && e.number == x;
      }
    }
  }

  lemma MergeOrdered(arena: Arena, rs: seq<Range>, run: Range)
    requires Ordered(rs) && Maximal(arena, rs) && run.lo < run.hi
    requires rs != [] ==> rs[|rs| - 1].hi <= run.lo
    requires rs != [] && rs[|rs| - 1].hi == run.lo ==>
               FilterCode(arena, rs[|rs| - 1].filter) != FilterCode(arena, run.filter)
    ensures Ordered(rs + [run]) && Maximal(arena, rs + [run])
  {
    forall k | 0 <= k < |rs|
      ensures rs[k].hi <= run.lo
      ensures rs[k].hi == run.lo ==> FilterCode(arena, rs[k].filter) != FilterCode(arena, run.filter)
    {
      assert rs[k].hi <= rs[|rs| - 1].hi;
      assert k < |rs| - 1 ==> rs[k].hi <= rs[|rs| - 1].lo < rs[|rs| - 1].hi;
    }
  }

  lemma MergeFrequency(rs: seq<Range>, es: seq<Entry>, lower: nat, upper: nat)
    requires lower < upper <= |es| && Frequency(rs) == Sum(es[..lower], EntryFrequency)
    ensures Frequency(rs + [RunRange(es, lower, upper)]) == Sum(es[..upper], EntryFrequency)
  {
    var run := RunRange(es, lower, upper);
    assert es[..upper] == es[..lower] + es[lower..upper];
    SumConcat(es[..lower], es[lower..upper], EntryFrequency);
    SumConcat(rs, [run], RangeFrequency);
    assert Sum([run], RangeFrequency) == run.frequency;
  }

  // ----- How often the numbers of a range are asked for -----

  /** The frequencies of the entries with a number in `[lo, hi)`. */
  function Inside(es: seq<Entry>, lo: nat, hi: nat): nat {
    if es == [] then 0 else (if lo <= es[0].number < hi then es[0].frequency else 0) + Inside(es[1..], lo, hi)
  }

  ghost predicate Tallied(rs: seq<Range>, es: seq<Entry>) {
    forall r :: r in rs ==> r.frequency == Inside(es, r.lo, r.hi)
  }

  lemma {:induction false} InsideJoin(a: seq<Entry>, b: seq<Entry>, lo: nat, hi: nat)
    ensures Inside(a + b, lo, hi) == Inside(a, lo, hi) + Inside(b, lo, hi)
  {
    if a == [] {
      assert a + b == b;
    } else {
      InsideJoin(a[1..], b, lo, hi);
      assert (a + b)[1..] == a[1..] + b;
    }
  }

  lemma {:induction false} InsideNone(es: seq<Entry>, lo: nat, hi: nat)
    requires forall i :: 0 <= i < |es| ==> !(lo <= es[i].number < hi)
    ensures Inside(es, lo, hi) == 0
  {
    if es != [] {
      InsideNone(es[1..], lo, hi);
    }
  }

  lemma {:induction false} InsideAll(es: seq<Entry>, lo: nat, hi: nat)
    requires forall i :: 0 <= i < |es| ==> lo <= es[i].number < hi
    ensures Inside(es, lo, hi) == Sum(es, EntryFrequency)
  {
    if es != [] {
      InsideAll(es[1..], lo, hi);
    }
  }

  lemma {:induction false} RunTally(arena: Arena, es: seq<Entry>, lower: nat, upper: nat)
    requires StrictlyIncreasing(es) && IsRun(arena, es, lower, upper)
    ensures var run := RunRange(es, lower, upper); run.frequency == Inside(es, run.lo, run.hi)
  {
    hide Inside, Sum;
    var run := RunRange(es, lower, upper);
    assert es == es[..lower] + (es[lower..upper] + es[upper..]);
    InsideJoin(es[..lower], es[lower..upper] + es[upper..], run.lo, run.hi);
    InsideJoin(es[lower..upper], es[upper..], run.lo, run.hi);
    InsideNone(es[..lower], run.lo, run.hi);
    InsideNone(es[upper..], run.lo, run.hi);
    InsideAll(es[lower..upper], run.lo, run.hi);
  }

  ghost function WeightIn(lo: nat, hi: nat): Entry -> nat { (e: Entry) => if lo <= e.number < hi then e.frequency else 0 }

  lemma {:induction false} InsideIsSum(es: seq<Entry>, lo: nat, hi: nat)
    ensures Inside(es, lo, hi) == Sum(es, WeightIn(lo, hi))
  {
    if es != [] {
      InsideIsSum(es[1..], lo, hi);
    }
  }

  lemma {:induction false} InsideSorted(es: seq<Entry>, lo: nat, hi: nat)
    ensures Inside(Sort(es, ByNumber), lo, hi) == Inside(es, lo, hi)
  {
    InsideIsSum(es, lo, hi);
    InsideIsSum(Sort(es, ByNumber), lo, hi);
    SumSort(es, ByNumber, WeightIn(lo, hi));
  }

  lemma MergeRun(arena: Arena, rs: seq<Range>, es: seq<Entry>, lower: nat, upper: nat)
    requires StrictlyIncreasing(es) && Merged(arena, rs, es, lower)
    requires IsRun(arena, es, lower, upper) && EndsRun(arena, es, lower)
    ensures Merged(arena, rs + [RunRange(es, lower, upper)], es, upper)
  {
    hide Covers, Frequency, Ordered, Maximal, FilterCode, Sum;
    var run := RunRange(es, lower, upper);
    assert es[lower] in es && SomeFilterOf(run, es);
    CoversRun(arena, rs, es, lower, upper);
    MergeFrequency(rs, es, lower, upper);
    MergeOrdered(arena, rs, run);
  }

  /** The inner loop: where the run that starts at `lower` ends. */
  method RunEnd(arena: Arena, es: seq<Entry>, lower: nat) returns (upper: nat)
    requires lower < |es|
    ensures IsRun(arena, es, lower, upper) && EndsRun(arena, es, upper)
  {
    upper := lower + 1;
    while upper < |es|
      invariant IsRun(arena, es, lower, upper)
    {
      if FilterCode(arena, es[upper - 1].filter) != FilterCode(arena, es[upper].filter) {
        break;
      }
      if es[upper - 1].number + 1 != es[upper].number {
        break;
      }
      upper := upper + 1;
    }
  }

  /** The outer loop, over entries already sorted by number. */
  method MergeSorted(arena: Arena, es: seq<Entry>) returns (rs: seq<Range>)
    requires StrictlyIncreasing(es)
    ensures Merged(arena, rs, es, |es|) && Tallied(rs, es)
  {
    rs := [];
    var lower := 0;
    assert Merged(arena, rs, es, 0);
    hide Merged, Inside;
    while lower < |es|
      invariant lower <= |es| && Tallied(rs, es)
      invariant Merged(arena, rs, es, lower) && EndsRun(arena, es, lower)
    {
      var upper := RunEnd(arena, es, lower);
      MergeRun(arena, rs, es, lower, upper);
      RunTally(arena, es, lower, upper);
      rs := rs + [RunRange(es, lower, upper)];
      lower := upper;
    }
  }

  /** What the rest of the compiler relies on. */
  ghost predicate RangesOf(arena: Arena, rs: seq<Range>, es: seq<Entry>) {
    && Ordered(rs) && Maximal(arena, rs)
    && Covers(arena, rs, es)
    && Frequency(rs) == Sum(es, EntryFrequency)
    && (rs == [] <==> es == [])
    && (forall r :: r in rs ==> r.hi <= TWO32 && SomeFilterOf(r, es))
  }

  /** _convert_to_ranges: an ordered, maximal and exact cover of the entries; each range is as frequent as the entries in
      it together. */
  method ConvertToRanges(arena: Arena, es: seq<Entry>) returns (rs: seq<Range>)
    requires Distinct(es)
    ensures RangesOf(arena, rs, es)
    ensures forall r :: r in rs ==> r.frequency == Inside(es, r.lo, r.hi)
  {
    hide Inside;
    var sorted := Sort(es, ByNumber);
    SortMembers(es, ByNumber);
    SortedDistinct(es);
    SumSort(es, ByNumber, EntryFrequency);
    rs := MergeSorted(arena, sorted);
    assert sorted[..|sorted|] == sorted;
    SameMembers(arena, rs, sorted, es);
    forall r | r in rs
      ensures r.frequency == Inside(es, r.lo, r.hi)
    {
      InsideSorted(es, r.lo, r.hi);
    }
  }

  lemma SameMembers(arena: Arena, rs: seq<Range>, es: seq<Entry>, fs: seq<Entry>)
    requires forall e :: e in es <==> e in fs
    requires Covers(arena, rs, es)
    requires forall r :: r in rs ==> SomeFilterOf(r, es)
    ensures Covers(arena, rs, fs)
    ensures forall r :: r in rs ==> SomeFilterOf(r, fs)
  {
    forall r, x: nat | r in rs && Within(x, r)
      ensures Named(x, fs)
    {
      assert Named(x, es);
    }
    forall r | r in rs
      ensures SomeFilterOf(r, fs)
    {
      assert SomeFilterOf(r, es);
    }
  }

  lemma {:induction false} SortedDistinct(es: seq<Entry>)
    requires Distinct(es)
    ensures StrictlyIncreasing(Sort(es, ByNumber))
  {
    var sorted := Sort(es, ByNumber);
    SortSorts(es, ByNumber);
    forall i, j | 0 <= i < j < |sorted|
      ensures sorted[i].number < sorted[j].number
    {
      assert ByNumber(sorted[i]) <= ByNumber(sorted[j]);
      if sorted[i].number == sorted[j].number {
        var k := ByNumber(sorted[i]);
        TwoWithKey(sorted, ByNumber, k, i, j);
        SortStable(es, ByNumber, k);
        DistinctKeys(es, k);
      }
    }
  }

  lemma {:induction false} TwoWithKey<T>(s: seq<T>, key: T -> int, k: int, i: nat, j: nat)
    requires i < j < |s| && key(s[i]) == k && key(s[j]) == k
    ensures |WithKey(s, key, k)| >= 2
  {
    if i > 0 {
      TwoWithKey(s[1..], key, k, i - 1, j - 1);
    } else {
      OneWithKey(s[1..], key, k, j - 1);
    }
  }

  lemma {:induction false} OneWithKey<T>(s: seq<T>, key: T -> int, k: int, j: nat)
    requires j < |s| && key(s[j]) == k
    ensures |WithKey(s, key, k)| >= 1
  {
    if j > 0 {
      OneWithKey(s[1..], key, k, j - 1);
    }
  }

  lemma {:induction false} DistinctKeys(es: seq<Entry>, k: int)
    requires Distinct(es)
    ensures |WithKey(es, ByNumber, k)| <= 1
  {
    if es != [] {
      DistinctKeys(es[1..], k);
      if es[0].number == k {
        NoKey(es[1..], k);
      }
    }
  }

  lemma {:induction false} NoKey(es: seq<Entry>, k: int)
    requires forall i :: 0 <= i < |es| ==> es[i].number != k
    ensures WithKey(es, ByNumber, k) == []
  {
    if es != [] {
      NoKey(es[1..], k);
    }
  }
}
