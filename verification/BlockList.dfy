/** The linked filter_block lists of syscall_filter.c, updated in place. */
module BlockList {
  import opened Machine

  /** The instructions of a list of blocks, in order. */
  function Concat(blocks: seq<Program>): Program {
    if blocks == [] then [] else Concat(blocks[..|blocks| - 1]) + blocks[|blocks| - 1]
  }

  lemma {:induction false} ConcatJoin(a: seq<Program>, b: seq<Program>)
    ensures Concat(a + b) == Concat(a) + Concat(b)
  {
    if b == [] {
      assert a + b == a;
    } else {
      var n := |b| - 1;
      ConcatJoin(a, b[..n]);
      assert (a + b)[..|a + b| - 1] == a + b[..n];
    }
  }

  lemma ConcatOne(code: Program)
    ensures Concat([code]) == code
  {
    assert [code][..0] == [];
  }

  ghost predicate NoDuplicates(nodes: seq<FilterBlock>) {
    forall i, j :: 0 <= i < j < |nodes| ==> nodes[i] != nodes[j]
  }

  ghost predicate Apart(a: seq<FilterBlock>, b: seq<FilterBlock>) {
    forall n :: n in a ==> n !in b
  }

  class FilterBlock {
    var instrs: Option<Program>
    var len: nat
    var next: FilterBlock?
    var last: FilterBlock?
    var totalLen: nat

    /** For the head of a list: its blocks and what they hold. */
    ghost var nodes: seq<FilterBlock>
    ghost var blocks: seq<Program>

    constructor ()
      ensures Valid() && nodes == [] && blocks == [] && instrs.None?
    {
      instrs, len, next, last, totalLen := None, 0, null, null, 0;
      nodes, blocks := [], [];
    }

    /** Block `i` of the list holds its instructions and points to block `i + 1`. */
    ghost predicate Holds(i: nat)
      requires i < |nodes| == |blocks|
      reads this, nodes
    {
      && nodes[i].instrs == Some(blocks[i]) && nodes[i].len == |blocks[i]|
      && nodes[i].next == if i + 1 < |nodes| then nodes[i + 1] else null
    }

    /** The head knows the true tail and the total length of all reachable blocks. */
    ghost predicate Valid()
      reads this, nodes
    {
      && |nodes| == |blocks|
      && totalLen == |Concat(blocks)|
      && last == (if |nodes| <= 1 then null else nodes[|nodes| - 1])
      && NoDuplicates(nodes)
      && (instrs.None? ==> nodes == [] && next == null)
      && (instrs.Some? ==> nodes != [] && nodes[0] == this)
      && forall i :: 0 <= i < |nodes| ==> Holds(i)
    }

    /** The blocks as a set, for frames. */
    ghost function Nodes(): set<FilterBlock>
      reads this
    {
      set n | n in nodes
    }

    ghost function Code(): Program
      reads this
    {
      Concat(blocks)
    }

    /** append_filter_block */
    method Append(code: Program)
      requires Valid()
      modifies this, Nodes()
      ensures Valid() && instrs.Some?
      ensures blocks == old(blocks) + [code] && Code() == old(Code()) + code
      ensures fresh(Nodes() - old(Nodes()) - {this})
    {
      ConcatJoin(blocks, [code]);
      ConcatOne(code);
      if instrs.None? {
        instrs, totalLen, len := Some(code), |code|, |code|;
        last, next := null, null;
        nodes, blocks := [this], [code];
      } else {
        AppendBlock(code);
      }
    }

    method AppendBlock(code: Program)
      requires Valid() && instrs.Some?
      modifies this, Nodes()
      ensures Valid() && instrs.Some?
      ensures blocks == old(blocks) + [code]
      ensures fresh(Nodes() - old(Nodes()))
    {
      hide Concat;
      ConcatJoin(blocks, [code]);
      ConcatOne(code);
      var newLast := new FilterBlock();
      if next != null {
        assert Holds(0);
        assert last == nodes[|nodes| - 1];
        last.next := newLast;
        last := newLast;
      } else {
        assert Holds(0);
        last, next := newLast, newLast;
      }
      totalLen := totalLen + |code|;
      newLast.instrs, newLast.len, newLast.totalLen := Some(code), |code|, |code|;
      ghost var a := nodes;
      nodes, blocks := nodes + [newLast], blocks + [code];
      forall i | 0 <= i < |nodes|
        ensures Holds(i)
      {
        if i < |a| {
          assert old(Holds(i));
          assert i < |a| - 1 ==> a[i] != a[|a| - 1];
        }
      }
    }

    /** extend_filter_block_list.  A list of a single block has no `last`, so `another` needs two blocks for the
        new tail to be known. */
    method Extend(another: FilterBlock)
      requires Valid() && another.Valid() && instrs.Some?
      requires Apart(nodes, another.nodes) && |another.nodes| > 1
      modifies this, Nodes()
      ensures Valid() && instrs.Some?
      ensures nodes == old(nodes) + another.nodes
      ensures blocks == old(blocks) + old(another.blocks) && Code() == old(Code()) + old(another.Code())
    {
      hide Concat;
      ConcatJoin(blocks, another.blocks);
      ghost var a, b := nodes, another.nodes;
      assert b[0] == another;
      assert this in a;
      assert another !in a && this !in b;
      if last != null {
        last.next := another;
        last := another.last;
      } else {
        next := another;
        last := another.last;
      }
      totalLen := totalLen + another.totalLen;
      nodes, blocks := a + b, blocks + another.blocks;
      NoDuplicatesJoin(a, b);
      forall i | 0 <= i < |nodes|
        ensures Holds(i)
      {
        if i >= |a| {
          assert old(another.Holds(i - |a|));
          assert nodes[i] == b[i - |a|] && b[i - |a|] !in a;
        } else {
          assert old(Holds(i));
          assert i < |a| - 1 ==> a[i] != a[|a| - 1];
        }
      }
    }
  }

  lemma NoDuplicatesJoin(a: seq<FilterBlock>, b: seq<FilterBlock>)
    requires NoDuplicates(a) && NoDuplicates(b) && Apart(a, b)
    ensures NoDuplicates(a + b)
  {
    forall i, j | 0 <= i < j < |a + b|
      ensures (a + b)[i] != (a + b)[j]
    {
      if i < |a| <= j {
        assert a[i] in a && b[j - |a|] in b;
      }
    }
  }

  /** The inner loop of flatten_block_list. */
  method CopyBlock(filter: array<SockFilter>, at: nat, cap: nat, code: Program) returns (ok: bool)
    requires at <= cap <= filter.Length
    modifies filter
    ensures ok <==> at + |code| <= cap
    ensures ok ==> filter[..] == old(filter[..at]) + code + old(filter[at + |code|..])
  {
    ghost var before := filter[..];
    var i := 0;
    while i < |code|
      invariant i <= |code| && at + i <= cap
      invariant filter[..] == before[..at] + code[..i] + before[at + i..]
    {
      if at + i >= cap {
        return false;
      }
      filter[at + i] := code[i];
      assert code[..i + 1] == code[..i] + [code[i]];
      i := i + 1;
    }
    assert code[..i] == code;
    ok := true;
  }

  ghost function ListCode(head: FilterBlock?): Program
    reads head
  {
    if head == null then [] else head.Code()
  }

  /** flatten_block_list: copies a list into `filter` from `index` on, and fails exactly when it does not fit. */
  method FlattenBlockList(head: FilterBlock?, filter: array<SockFilter>, index: nat, cap: nat) returns (ret: int)
    requires head != null ==> head.Valid() && head.instrs.Some?
    requires index <= cap <= filter.Length
    modifies filter
    ensures ret == 0 <==> index + |ListCode(head)| <= cap
    ensures ret == 0 || ret == -1
    ensures ret == 0 ==> filter[..] == old(filter[..index]) + ListCode(head) + old(filter[index + |ListCode(head)|..])
  {
    hide Concat;
    var at := index;
    var curr := head;
    ghost var k, before := 0, filter[..];
    ghost var blocks: seq<Program> := if head == null then [] else head.blocks;
    ConcatEmpty(blocks);
    while curr != null
      invariant k <= |blocks|
      invariant curr == if head != null && k < |head.nodes| then head.nodes[k] else null
      invariant at == index + |Concat(blocks[..k])| <= cap
      invariant filter[..] == before[..index] + Concat(blocks[..k]) + before[at..]
      decreases |blocks| - k
    {
      assert head.Holds(k);
      var code := curr.instrs.value;
      at := FlattenOne(filter, index, at, cap, code, blocks, k, before);
      if at > cap {
        return -1;
      }
      curr := curr.next;
      k := k + 1;
    }
    assert blocks[..k] == blocks;
    ret := 0;
  }

  lemma ConcatEmpty(blocks: seq<Program>)
    ensures Concat(blocks[..0]) == []
  {
  }

  lemma ConcatNext(blocks: seq<Program>, k: nat)
    requires k < |blocks|
    ensures Concat(blocks[..k + 1]) == Concat(blocks[..k]) + blocks[k]
    ensures |Concat(blocks[..k + 1])| <= |Concat(blocks)|
  {
    assert blocks[..k + 1][..k] == blocks[..k];
    ConcatJoin(blocks[..k + 1], blocks[k + 1..]);
    assert blocks[..k + 1] + blocks[k + 1..] == blocks;
  }

  /** Copies block `k`; the result is past `cap` if it does not fit. */
  method FlattenOne(filter: array<SockFilter>, index: nat, at: nat, cap: nat, code: Program,
                    ghost blocks: seq<Program>, ghost k: nat, ghost before: Program) returns (next: nat)
    requires k < |blocks| && blocks[k] == code && index <= at <= cap <= filter.Length == |before|
    requires at == index + |Concat(blocks[..k])|
    requires filter[..] == before[..index] + Concat(blocks[..k]) + before[at..]
    modifies filter
    ensures next > cap <==> at + |code| > cap
    ensures next > cap ==> index + |Concat(blocks)| > cap
    ensures next <= cap ==> next == index + |Concat(blocks[..k + 1])|
    ensures next <= cap ==> filter[..] == before[..index] + Concat(blocks[..k + 1]) + before[next..]
  {
    ConcatNext(blocks, k);
    hide Concat;
    ghost var now := filter[..];
    var ok := CopyBlock(filter, at, cap, code);
    if !ok {
      return cap + 1;
    }
    assert now[..at] == before[..index] + Concat(blocks[..k]) && now[at + |code|..] == before[at + |code|..];
    next := at + |code|;
  }
}
