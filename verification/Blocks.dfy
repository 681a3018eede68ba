/** The DAG of blocks that tools/bpf.py builds before it emits instructions.

    Blocks are immutable Python objects told apart by `id(block)` and shared
    freely.  Here they live in an arena in order of construction: an object's
    identity is its index, and a block refers only to blocks built before it. */
module Blocks {
  import opened Bits
  import opened Machine

  type BlockId = nat

  datatype Block =
    | ActionBlock(action: Action)
    | BasicBlock(code: Program)
    | SyscallEntry(op: Comparison, number: nat, jt: BlockId, jf: BlockId)
    | WideAtom(offset: nat, op: Comparison, value: nat, jt: BlockId, jf: BlockId)
    | Atom(arg: nat, op: Comparison, value: nat, jt: BlockId, jf: BlockId)

  type Arena = seq<Block>

  predicate IsBranch(b: Block) {
    b.SyscallEntry? || b.WideAtom? || b.Atom?
  }

  /** The instructions of the classes that derive from BasicBlock. */
  function Instructions(b: Block): Program
    requires !IsBranch(b)
  {
    if b.ActionBlock? then [Return(b.action)] else b.code
  }

  ghost predicate BlockOk(b: Block, id: BlockId) {
    && (IsBranch(b) ==> b.jt < id && b.jf < id)
    && (b.BasicBlock? ==> Checked(b.code, PACKED_SIZE))
    && (b.WideAtom? ==> b.offset + 4 <= PACKED_SIZE)
    && (b.Atom? ==> b.arg < MAX_SYSCALL_ARGUMENTS && b.value < TWO64)
  }

  ghost predicate WellFormed(arena: Arena) {
    forall id {:trigger arena[id]} :: 0 <= id < |arena| ==> BlockOk(arena[id], id)
  }

  /** Every block reachable from `id` is one that the flattening visitor knows. */
  ghost predicate Lowered(arena: Arena, id: BlockId)
    requires WellFormed(arena) && id < |arena|
  {
    var b := arena[id];
    !b.Atom? && (IsBranch(b) ==> Lowered(arena, b.jt) && Lowered(arena, b.jf))
  }

  /** What a block means: the verdict it leads to from accumulator `a`. */
  ghost function Denote(arena: Arena, id: BlockId, mem: seq<Byte>, a: nat): Outcome
    requires WellFormed(arena) && id < |arena|
  {
    match arena[id]
    case ActionBlock(action) => Returned(RetValue(action))
    case BasicBlock(code) => Run(code, mem, a)
    case SyscallEntry(op, number, jt, jf) =>
      Denote(arena, if Test(op, a, number) then jt else jf, mem, a)
    case WideAtom(offset, op, value, jt, jf) =>
      var w := Load(mem, offset);
      if w.None? then BadLoad
      else Denote(arena, if Test(op, w.value, value) then jt else jf, mem, w.value)
    case Atom(_, _, _, _, _) => BadInstruction
  }

  lemma {:induction false} DenoteExtended(arena: Arena, bigger: Arena, id: BlockId, mem: seq<Byte>, a: nat)
    requires WellFormed(arena) && WellFormed(bigger) && arena <= bigger && id < |arena|
    ensures Denote(bigger, id, mem, a) == Denote(arena, id, mem, a)
  {
    var b := arena[id];
    assert bigger[id] == b;
    match b {
      case ActionBlock(_) =>
      case BasicBlock(_) =>
      case SyscallEntry(op, number, jt, jf) =>
        DenoteExtended(arena, bigger, if Test(op, a, number) then jt else jf, mem, a);
      case WideAtom(offset, op, value, jt, jf) =>
        var w := Load(mem, offset);
        if w.Some? {
          DenoteExtended(arena, bigger, if Test(op, w.value, value) then jt else jf, mem, w.value);
        }
      case Atom(_, _, _, _, _) =>
    }
  }

  lemma {:induction false} LoweredExtended(arena: Arena, bigger: Arena, id: BlockId)
    requires WellFormed(arena) && WellFormed(bigger) && arena <= bigger && id < |arena|
    requires Lowered(arena, id)
    ensures Lowered(bigger, id)
  {
    var b := arena[id];
    assert bigger[id] == b;
    if IsBranch(b) {
      LoweredExtended(arena, bigger, b.jt);
      LoweredExtended(arena, bigger, b.jf);
    }
  }

  lemma WellFormedAppend(arena: Arena, b: Block)
    requires WellFormed(arena) && BlockOk(b, |arena|)
    ensures WellFormed(arena + [b])
  {
  }
}
