/** Atom and LoweringVisitor of tools/bpf.py: 64-bit comparisons become graphs of
    32-bit tests, and the rest of the DAG is copied with its sharing. */
module Lowering {
  import opened Bits
  import opened Machine
  import opened Blocks
  import opened Filters

  /** The constructor of Atom: eight operators become four tests, swapping the
      branches or negating the mask. */
  function NewAtom(atom: AtomExpr, jt: BlockId, jf: BlockId): Block {
    match atom.op
    case Eq => Atom(atom.arg, Jeq, atom.value, jt, jf)
    case Ne => Atom(atom.arg, Jeq, atom.value, jf, jt)
    case Gt => Atom(atom.arg, Jgt, atom.value, jt, jf)
    case Le => Atom(atom.arg, Jgt, atom.value, jf, jt)
    case Ge => Atom(atom.arg, Jge, atom.value, jt, jf)
    case Lt => Atom(atom.arg, Jge, atom.value, jf, jt)
    case Set => Atom(atom.arg, Jset, atom.value, jt, jf)
    case In => Atom(atom.arg, Jset, TWO64 - 1 - atom.value, jf, jt)
  }

  lemma NewAtomBranches(atom: AtomExpr, jt: BlockId, jf: BlockId, v: U64)
    ensures var b := NewAtom(atom, jt, jf);
            (if Test(b.op, v, b.value) then b.jt else b.jf) == if Holds(atom.op, v, atom.value) then jt else jf
  {
    if atom.op.In? {
      Pow2Words();
      AndComplement(64, v, atom.value);
    }
  }

  /** A DAG of atoms that ends in actions, as compile_filter_statement builds it.  On a
      32-bit machine the constants of ordered comparisons are 32-bit words. */
  ghost predicate FilterDag(arena: Arena, id: BlockId, bits: nat)
    requires WellFormed(arena) && id < |arena|
  {
    var b := arena[id];
    || b.ActionBlock?
    || (b.Atom?
        && (bits == 32 && b.op != Jset ==> b.value < TWO32)
        && FilterDag(arena, b.jt, bits) && FilterDag(arena, b.jf, bits))
  }

  /** No atom of the DAG looks at argument `n` or beyond. */
  ghost predicate Fits(arena: Arena, id: BlockId, n: nat)
    requires WellFormed(arena) && id < |arena|
  {
    var b := arena[id];
    b.Atom? ==> b.arg < n && Fits(arena, b.jt, n) && Fits(arena, b.jf, n)
  }

  lemma {:induction false} FitsExtended(arena: Arena, bigger: Arena, id: BlockId, n: nat)
    requires WellFormed(arena) && WellFormed(bigger) && arena <= bigger && id < |arena|
    ensures Fits(bigger, id, n) <==> Fits(arena, id, n)
  {
    var b := arena[id];
    assert bigger[id] == b;
    if b.Atom? {
      FitsExtended(arena, bigger, b.jt, n);
      FitsExtended(arena, bigger, b.jf, n);
    }
  }

  /** The action a DAG of atoms selects, by whole 64-bit comparisons. */
  ghost function Eval(arena: Arena, id: BlockId, args: seq<U64>): Action
    requires WellFormed(arena) && id < |arena| && Fits(arena, id, |args|)
  {
    match arena[id]
    case ActionBlock(action) => action
    case Atom(arg, op, value, jt, jf) => Eval(arena, if Test(op, args[arg], value) then jt else jf, args)
    case _ => KillProcess
  }

  lemma {:induction false} EvalExtended(arena: Arena, bigger: Arena, id: BlockId, args: seq<U64>)
    requires WellFormed(arena) && WellFormed(bigger) && arena <= bigger && id < |arena|
    requires Fits(arena, id, |args|)
    ensures Fits(bigger, id, |args|) && Eval(bigger, id, args) == Eval(arena, id, args)
  {
    FitsExtended(arena, bigger, id, |args|);
    var b := arena[id];
    assert bigger[id] == b;
    if b.Atom? {
      EvalExtended(arena, bigger, if Test(b.op, args[b.arg], b.value) then b.jt else b.jf, args);
    }
  }

  lemma {:induction false} FilterDagExtended(arena: Arena, bigger: Arena, id: BlockId, bits: nat)
    requires WellFormed(arena) && WellFormed(bigger) && arena <= bigger && id < |arena|
    requires FilterDag(arena, id, bits)
    ensures FilterDag(bigger, id, bits)
  {
    var b := arena[id];
    assert bigger[id] == b;
    if b.Atom? {
      FilterDagExtended(arena, bigger, b.jt, bits);
      FilterDagExtended(arena, bigger, b.jf, bits);
    }
  }

  /** The blocks visitAtom creates, the last one standing for the atom; the first
      lands at index `base`. */
  function LowerAtom(base: BlockId, b: Block, jt: BlockId, jf: BlockId, bits: nat): (blocks: seq<Block>)
    requires b.Atom? && b.value < TWO64
    ensures 1 <= |blocks| <= 3
  {
    var lo, hi := Lo(b.value), Hi(b.value);
    var loAt, hiAt := ArgOffset(b.arg, false), ArgOffset(b.arg, true);
    var loBlock := WideAtom(loAt, b.op, lo, jt, jf);
    if bits == 32 then [loBlock]
    else if b.op == Jge || b.op == Jgt then
      if hi == 0 then [loBlock, WideAtom(hiAt, Jgt, hi, jt, base)]
      else [loBlock, WideAtom(hiAt, Jeq, hi, base, jf), WideAtom(hiAt, Jgt, hi, jt, base + 1)]
    else if b.op == Jset then
      if hi == 0 then [loBlock]
      else [loBlock, WideAtom(hiAt, b.op, hi, jt, base)]
    else [loBlock, WideAtom(hiAt, b.op, hi, base, jf)]
  }

  /** The data a filter compiled for `bits` is promised to be right about. */
  predicate InScope(d: SyscallData, bits: nat) {
    bits == 32 ==> forall i :: 0 <= i < |d.args| ==> d.args[i] < TWO32
  }

  lemma WideStep(arena: Arena, id: BlockId, d: SyscallData, a: nat, arg: nat, hi: bool)
    requires WellFormed(arena) && id < |arena| && arena[id].WideAtom?
    requires arg < |d.args| && arena[id].offset == ArgOffset(arg, hi)
    ensures var w := if hi then Hi(d.args[arg]) else Lo(d.args[arg]);
            Denote(arena, id, Pack(d), a) ==
              Denote(arena, if Test(arena[id].op, w, arena[id].value) then arena[id].jt else arena[id].jf, Pack(d), w)
  {
    LoadsArg(d, arg);
  }

  lemma LoweredWellFormed(arena: Arena, id: BlockId, jt: BlockId, jf: BlockId, bits: nat)
    requires WellFormed(arena) && id < |arena| && arena[id].Atom? && jt < |arena| && jf < |arena|
    requires Lowered(arena, jt) && Lowered(arena, jf)
    ensures var bigger := arena + LowerAtom(|arena|, arena[id], jt, jf, bits);
            WellFormed(bigger) && Lowered(bigger, |bigger| - 1)
  {
    var extra := LowerAtom(|arena|, arena[id], jt, jf, bits);
    var bigger := arena + extra;
    forall i {:trigger bigger[i]} | 0 <= i < |bigger|
      ensures BlockOk(bigger[i], i)
    {
      if i < |arena| {
        assert BlockOk(arena[i], i);
      } else {
        assert bigger[i] == extra[i - |arena|];
      }
    }
    LoweredExtended(arena, bigger, jt);
    LoweredExtended(arena, bigger, jf);
    assert bigger[|arena|] == extra[0];
    assert Lowered(bigger, |arena|);
    if |extra| > 1 {
      assert bigger[|arena| + 1] == extra[1];
      assert Lowered(bigger, |arena| + 1);
    }
    if |extra| > 2 {
      assert bigger[|arena| + 2] == extra[2];
    }
  }

  /** One test of the low half: enough on 32 bits, and for masks without high bits. */
  lemma LowerOne(arena: Arena, b: Block, jt: BlockId, jf: BlockId, bits: nat, d: SyscallData, a: nat)
    requires LowerAtomSetup(arena, b, jt, jf, bits, d)
    requires |LowerAtom(|arena|, b, jt, jf, bits)| == 1
    ensures var bigger := arena + LowerAtom(|arena|, b, jt, jf, bits);
            Denote(bigger, |bigger| - 1, Pack(d), a) ==
            Denote(bigger, if Test(b.op, d.args[b.arg], b.value) then jt else jf, Pack(d), Lo(d.args[b.arg]))
  {
    var extra := LowerAtom(|arena|, b, jt, jf, bits);
    var bigger := arena + extra;
    assert bigger[|arena|] == extra[0];
    hide Denote, Pack, And;
    TestByHalves(b.op, d.args[b.arg], b.value);
    WideStep(bigger, |arena|, d, a, b.arg, false);
  }

  lemma LowerTwo(arena: Arena, b: Block, jt: BlockId, jf: BlockId, bits: nat, d: SyscallData,
                 a: nat) returns (last: nat)
    requires LowerAtomSetup(arena, b, jt, jf, bits, d)
    requires |LowerAtom(|arena|, b, jt, jf, bits)| == 2
    ensures var bigger := arena + LowerAtom(|arena|, b, jt, jf, bits);
            Denote(bigger, |bigger| - 1, Pack(d), a) ==
            Denote(bigger, if Test(b.op, d.args[b.arg], b.value) then jt else jf, Pack(d), last)
  {
    var extra := LowerAtom(|arena|, b, jt, jf, bits);
    var bigger := arena + extra;
    var v, base := d.args[b.arg], |arena|;
    assert bigger[base] == extra[0] && bigger[base + 1] == extra[1];
    hide Denote, Pack, And;
    TestByHalves(b.op, v, b.value);
    WideStep(bigger, base + 1, d, a, b.arg, true);
    WideStep(bigger, base, d, Hi(v), b.arg, false);
    last := if Test(extra[1].op, Hi(v), Hi(b.value)) == b.op.Jeq? then Lo(v) else Hi(v);
  }

  lemma LowerThree(arena: Arena, b: Block, jt: BlockId, jf: BlockId, bits: nat, d: SyscallData,
                   a: nat) returns (last: nat)
    requires LowerAtomSetup(arena, b, jt, jf, bits, d)
    requires |LowerAtom(|arena|, b, jt, jf, bits)| == 3
    ensures var bigger := arena + LowerAtom(|arena|, b, jt, jf, bits);
            Denote(bigger, |bigger| - 1, Pack(d), a) ==
            Denote(bigger, if Test(b.op, d.args[b.arg], b.value) then jt else jf, Pack(d), last)
  {
    var extra := LowerAtom(|arena|, b, jt, jf, bits);
    var bigger := arena + extra;
    var v, base := d.args[b.arg], |arena|;
    assert bigger[base] == extra[0] && bigger[base + 1] == extra[1] && bigger[base + 2] == extra[2];
    hide Denote, Pack, And;
    TestByHalves(b.op, v, b.value);
    WideStep(bigger, base + 2, d, a, b.arg, true);
    WideStep(bigger, base + 1, d, Hi(v), b.arg, true);
    WideStep(bigger, base, d, Hi(v), b.arg, false);
    last := if Hi(v) == Hi(b.value) then Lo(v) else Hi(v);
  }

  ghost predicate LowerAtomSetup(arena: Arena, b: Block, jt: BlockId, jf: BlockId, bits: nat, d: SyscallData) {
    && b.Atom? && b.value < TWO64 && b.arg < |d.args|
    && (bits == 32 && b.op != Jset ==> b.value < TWO32)
    && InScope(d, bits)
    && jt < |arena| && jf < |arena|
    && WellFormed(arena + LowerAtom(|arena|, b, jt, jf, bits))
  }

  /** The graph of 32-bit tests takes the branch of the 64-bit comparison. */
  lemma LowerAtomBranches(arena: Arena, b: Block, jt: BlockId, jf: BlockId, bits: nat, d: SyscallData, a: nat)
    returns (last: nat)
    requires LowerAtomSetup(arena, b, jt, jf, bits, d)
    ensures var bigger := arena + LowerAtom(|arena|, b, jt, jf, bits);
            Denote(bigger, |bigger| - 1, Pack(d), a) ==
            Denote(bigger, if Test(b.op, d.args[b.arg], b.value) then jt else jf, Pack(d), last)
  {
    hide Denote, Pack, Test;
    var n := |LowerAtom(|arena|, b, jt, jf, bits)|;
    if n == 1 {
      LowerOne(arena, b, jt, jf, bits, d, a);
      last := Lo(d.args[b.arg]);
    } else if n == 2 {
      last := LowerTwo(arena, b, jt, jf, bits, d, a);
    } else {
      last := LowerThree(arena, b, jt, jf, bits, d, a);
    }
  }

  /** Block `to` is the lowered form of block `id`: same verdict on all data in scope. */
  ghost predicate LowersTo(arena: Arena, id: BlockId, to: BlockId, bits: nat) {
    && WellFormed(arena)
    && id < |arena| && FilterDag(arena, id, bits)
    && to < |arena| && Lowered(arena, to)
    && forall d: SyscallData, a: nat {:trigger Denote(arena, to, Pack(d), a)} ::
         InScope(d, bits) && Fits(arena, id, |d.args|) ==>
         Denote(arena, to, Pack(d), a) == Returned(RetValue(Eval(arena, id, d.args)))
  }

  lemma LowersToExtended(arena: Arena, bigger: Arena, id: BlockId, to: BlockId, bits: nat)
    requires LowersTo(arena, id, to, bits) && WellFormed(bigger) && arena <= bigger
    ensures LowersTo(bigger, id, to, bits)
  {
    FilterDagExtended(arena, bigger, id, bits);
    LoweredExtended(arena, bigger, to);
    forall d: SyscallData, a: nat {:trigger Denote(bigger, to, Pack(d), a)} | InScope(d, bits) && Fits(bigger, id, |d.args|)
      ensures Denote(bigger, to, Pack(d), a) == Returned(RetValue(Eval(bigger, id, d.args)))
    {
      FitsExtended(arena, bigger, id, |d.args|);
      DenoteExtended(arena, bigger, to, Pack(d), a);
      EvalExtended(arena, bigger, id, d.args);
    }
  }

  /** If both targets of an atom are lowered, so is the atom. */
  lemma {:induction false} LowerAtomCorrect(arena: Arena, id: BlockId, jt: BlockId, jf: BlockId, bits: nat)
    requires WellFormed(arena) && id < |arena| && FilterDag(arena, id, bits) && arena[id].Atom?
    requires LowersTo(arena, arena[id].jt, jt, bits) && LowersTo(arena, arena[id].jf, jf, bits)
    ensures var bigger := arena + LowerAtom(|arena|, arena[id], jt, jf, bits);
            LowersTo(bigger, id, |bigger| - 1, bits)
  {
    var b := arena[id];
    var bigger := arena + LowerAtom(|arena|, b, jt, jf, bits);
    LoweredWellFormed(arena, id, jt, jf, bits);
    FilterDagExtended(arena, bigger, id, bits);
    LowersToExtended(arena, bigger, b.jt, jt, bits);
    LowersToExtended(arena, bigger, b.jf, jf, bits);
    assert bigger[id] == b;
    var top := |bigger| - 1;
    hide Denote, Eval, Pack;
    forall d: SyscallData, a: nat {:trigger Denote(bigger, top, Pack(d), a)} | InScope(d, bits) && Fits(bigger, id, |d.args|)
      ensures Denote(bigger, top, Pack(d), a) == Returned(RetValue(Eval(bigger, id, d.args)))
    {
      LowerAtomVerdict(arena, id, jt, jf, bits, d, a);
    }
    assert LowersTo(bigger, id, top, bits);
  }

  lemma LowerAtomVerdict(arena: Arena, id: BlockId, jt: BlockId, jf: BlockId, bits: nat, d: SyscallData, a: nat)
    requires WellFormed(arena) && id < |arena| && arena[id].Atom?
    requires LowerAtomSetup(arena, arena[id], jt, jf, bits, d)
    requires var bigger := arena + LowerAtom(|arena|, arena[id], jt, jf, bits);
             LowersTo(bigger, arena[id].jt, jt, bits) && LowersTo(bigger, arena[id].jf, jf, bits)
             && Fits(bigger, id, |d.args|)
    ensures var bigger := arena + LowerAtom(|arena|, arena[id], jt, jf, bits);
            Denote(bigger, |bigger| - 1, Pack(d), a) == Returned(RetValue(Eval(bigger, id, d.args)))
  {
    var b := arena[id];
    var bigger := arena + LowerAtom(|arena|, b, jt, jf, bits);
    assert bigger[id] == b;
    hide Denote, Pack, Test;
    var last := LowerAtomBranches(arena, b, jt, jf, bits, d, a);
    if Test(b.op, d.args[b.arg], b.value) {
      assert Denote(bigger, jt, Pack(d), last) == Returned(RetValue(Eval(bigger, b.jt, d.args)));
    } else {
      assert Denote(bigger, jf, Pack(d), last) == Returned(RetValue(Eval(bigger, b.jf, d.args)));
    }
  }

  class LoweringVisitor {
    const bits: nat
    var arena: Arena
    var visited: set<BlockId>
    var mapping: map<BlockId, BlockId>

    constructor (bits: nat, arena: Arena)
      ensures this.bits == bits && this.arena == arena
      ensures visited == {} && mapping == map[]
    {
      this.bits, this.arena := bits, arena;
      visited, mapping := {}, map[];
    }

    ghost predicate Valid()
      reads this
    {
      && WellFormed(arena)
      && mapping.Keys <= visited
      && forall id :: id in mapping ==> LowersTo(arena, id, mapping[id], bits)
    }

    ghost function Pending(): set<BlockId>
      reads this
    {
      visited - mapping.Keys
    }

    /** Adds `blocks`, the last of which becomes the image of `id`. */
    method Record(id: BlockId, blocks: seq<Block>)
      requires Valid() && blocks != []
      requires LowersTo(arena + blocks, id, |arena| + |blocks| - 1, bits)
      modifies this`arena, this`mapping
      ensures arena == old(arena) + blocks
      ensures mapping == old(mapping)[id := |arena| - 1]
      ensures WellFormed(arena)
      ensures forall p :: p in mapping ==> LowersTo(arena, p, mapping[p], bits)
    {
      forall p | p in mapping
        ensures LowersTo(arena + blocks, p, mapping[p], bits)
      {
        LowersToExtended(arena, arena + blocks, p, mapping[p], bits);
      }
      arena := arena + blocks;
      mapping := mapping[id := |arena| - 1];
    }

    method VisitAtom(id: BlockId)
      requires Valid() && id < |arena| && arena[id].Atom? && FilterDag(arena, id, bits)
      requires id in visited && id !in mapping
      requires arena[id].jt in mapping && arena[id].jf in mapping
      modifies this`arena, this`mapping
      ensures Valid() && old(arena) <= arena
      ensures mapping.Keys == old(mapping.Keys) + {id}
    {
      var b := arena[id];
      LowerAtomCorrect(arena, id, mapping[b.jt], mapping[b.jf], bits);
      Record(id, LowerAtom(|arena|, b, mapping[b.jt], mapping[b.jf], bits));
    }

    method VisitAction(id: BlockId)
      requires Valid() && id < |arena| && arena[id].ActionBlock?
      requires id in visited && id !in mapping
      modifies this`arena, this`mapping
      ensures Valid() && old(arena) <= arena
      ensures mapping.Keys == old(mapping.Keys) + {id}
    {
      var copy := ActionBlock(arena[id].action);
      WellFormedAppend(arena, copy);
      assert (arena + [copy])[id] == arena[id] && (arena + [copy])[|arena|] == copy;
      Record(id, [copy]);
    }

    method Accept(id: BlockId)
      requires Valid() && id < |arena| && FilterDag(arena, id, bits)
      requires forall p :: p in Pending() ==> id < p
      modifies this
      ensures Valid() && id in mapping && old(arena) <= arena
      ensures Pending() == old(Pending())
      ensures old(mapping.Keys) <= mapping.Keys
      decreases id
    {
      if id in visited {
        assert id !in Pending();
        return;
      }
      visited := visited + {id};
      assert Pending() == old(Pending()) + {id};
      var b := arena[id];
      if b.Atom? {
        ghost var a0 := arena;
        Accept(b.jt);
        FilterDagExtended(a0, arena, id, bits);
        Accept(b.jf);
        FilterDagExtended(a0, arena, id, bits);
        assert id in Pending();
        VisitAtom(id);
      } else {
        VisitAction(id);
      }
    }
  }

  /** LoweringVisitor(arch).process(block): lowering preserves meaning on whole shared DAGs. */
  method Lower(arena: Arena, root: BlockId, bits: nat) returns (bigger: Arena, lowered: BlockId)
    requires WellFormed(arena) && root < |arena| && FilterDag(arena, root, bits)
    ensures arena <= bigger
    ensures LowersTo(bigger, root, lowered, bits)
  {
    var visitor := new LoweringVisitor(bits, arena);
    visitor.Accept(root);
    bigger, lowered := visitor.arena, visitor.mapping[root];
  }
}
