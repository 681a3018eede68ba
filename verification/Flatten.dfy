/** FlatteningVisitor of tools/bpf.py: a DAG of blocks becomes one instruction list,
    built back to front so that every jump target is already in place. */
module Flatten {
  import opened Bits
  import opened Machine
  import opened Blocks

  /** A conditional jump over the given distances, falling back to long jumps when
      a distance does not fit in 8 bits. */
  function EmitJmp(op: Comparison, value: nat, jtDistance: nat, jfDistance: nat): (code: Program)
    ensures 1 <= |code| <= 3
  {
    if jtDistance < 256 && jfDistance < 256 then
      [SockFilter(Jmp(op), jtDistance, jfDistance, value)]
    else if jtDistance < 255 then
      [SockFilter(Jmp(op), jtDistance + 1, 0, value), SockFilter(Ja, 0, 0, jfDistance)]
    else if jfDistance < 255 then
      [SockFilter(Jmp(op), 0, jfDistance + 1, value), SockFilter(Ja, 0, 0, jtDistance)]
    else
      [SockFilter(Jmp(op), 0, 1, value), SockFilter(Ja, 0, 0, jtDistance + 1), SockFilter(Ja, 0, 0, jfDistance)]
  }

  lemma {:induction false} RunJump(ins: SockFilter, rest: Program, mem: seq<Byte>, a: nat)
    ensures ins.code.Ja? ==> Run([ins] + rest, mem, a) == Run(Drop(rest, ins.k), mem, a)
    ensures ins.code.Jmp? ==> Run([ins] + rest, mem, a) == Run(Drop(rest, Branch(ins, a)), mem, a)
  {
    assert ([ins] + rest)[1..] == rest;
  }

  /** Whatever the distances, the emitted jump lands exactly on its target. */
  lemma {:induction false} EmitJmpLands(op: Comparison, value: nat, jt: nat, jf: nat, rest: Program, mem: seq<Byte>,
                                        a: nat)
    requires jt < |rest| && jf < |rest|
    ensures Run(EmitJmp(op, value, jt, jf) + rest, mem, a) == Run(Drop(rest, if Test(op, a, value) then jt else jf), mem, a)
  {
    var code := EmitJmp(op, value, jt, jf);
    if jt < 256 && jf < 256 {
      RunJump(code[0], rest, mem, a);
    } else if jt < 255 {
      RunTwo(code[0], code[1], rest, mem, a);
      assert Drop([code[1]] + rest, jt + 1) == Drop(rest, jt);
    } else if jf < 255 {
      RunTwo(code[0], code[1], rest, mem, a);
      assert Drop([code[1]] + rest, jf + 1) == Drop(rest, jf);
    } else {
      RunThree(code[0], code[1], code[2], rest, mem, a);
      assert Drop([code[2]] + rest, jt + 1) == Drop(rest, jt);
    }
  }

  lemma {:induction false} RunTwo(first: SockFilter, second: SockFilter, rest: Program, mem: seq<Byte>, a: nat)
    requires first.code.Jmp? && second.code.Ja?
    ensures Run([first, second] + rest, mem, a) == Run(Drop([second] + rest, Branch(first, a)), mem, a)
    ensures Branch(first, a) == 0 ==> Run([first, second] + rest, mem, a) == Run(Drop(rest, second.k), mem, a)
  {
    assert [first, second] + rest == [first] + ([second] + rest);
    RunJump(first, [second] + rest, mem, a);
    RunJump(second, rest, mem, a);
  }

  lemma {:induction false} RunThree(first: SockFilter, second: SockFilter, third: SockFilter, rest: Program,
                                    mem: seq<Byte>, a: nat)
    requires first.code.Jmp? && second.code.Ja? && third.code.Ja?
    ensures Branch(first, a) == 0 ==>
              Run([first, second, third] + rest, mem, a) == Run(Drop([third] + rest, second.k), mem, a)
    ensures Branch(first, a) == 1 ==>
              Run([first, second, third] + rest, mem, a) == Run(Drop(rest, third.k), mem, a)
  {
    assert [first, second, third] + rest == [first, second] + ([third] + rest);
    RunTwo(first, second, [third] + rest, mem, a);
    assert Drop([second] + ([third] + rest), 1) == [third] + rest;
    RunJump(third, rest, mem, a);
  }

  lemma EmitJmpChecked(op: Comparison, value: nat, jt: nat, jf: nat, rest: Program, size: nat)
    requires Checked(rest, size) && jt < |rest| && jf < |rest|
    ensures Checked(EmitJmp(op, value, jt, jf) + rest, size)
  {
    PrependChecked(EmitJmp(op, value, jt, jf), rest, size);
  }

  lemma PrependChecked(code: Program, rest: Program, size: nat)
    requires Checked(rest, size)
    requires forall i {:trigger code[i]} :: 0 <= i < |code| ==> InstructionOk(code[i], |code| + |rest| - 1 - i, size)
    ensures Checked(code + rest, size)
  {
    var s := code + rest;
    forall i {:trigger s[i]} | 0 <= i < |s|
      ensures InstructionOk(s[i], |s| - 1 - i, size)
    {
      if i >= |code| {
        assert s[i] == rest[i - |code|];
      }
    }
  }

  /** `offset`, counted from the end of `code`, is where block `id` starts. */
  ghost predicate Placed(arena: Arena, code: Program, id: BlockId, offset: int)
    requires WellFormed(arena)
  {
    && id < |arena|
    && 0 < -offset <= |code|
    && forall mem: seq<Byte>, a: nat {:trigger Denote(arena, id, mem, a)} ::
         Run(code[|code| + offset..], mem, a) == Denote(arena, id, mem, a)
  }

  lemma PlacedPrepend(arena: Arena, code: Program, more: Program, id: BlockId, offset: int)
    requires WellFormed(arena) && Placed(arena, code, id, offset)
    ensures Placed(arena, more + code, id, offset)
  {
    assert (more + code)[|more + code| + offset..] == code[|code| + offset..];
  }

  /** The instructions emitted for one block, given the distances of its targets. */
  function BlockCode(b: Block, jtDistance: nat, jfDistance: nat): Program
    requires !b.Atom?
  {
    match b
    case SyscallEntry(op, number, _, _) => EmitJmp(op, number, jtDistance, jfDistance)
    case WideAtom(offset, op, value, _, _) =>
      [SockFilter(LdAbs, 0, 0, offset)] + EmitJmp(op, value, jtDistance, jfDistance)
    case ActionBlock(_) => Instructions(b)
    case BasicBlock(_) => Instructions(b)
  }

  /** Prepending a branch block to code that already holds its targets places the block. */
  lemma BranchPlaced(arena: Arena, code: Program, id: BlockId, jtOffset: int, jfOffset: int)
    requires WellFormed(arena) && id < |arena| && IsBranch(arena[id]) && !arena[id].Atom?
    requires Checked(code, PACKED_SIZE)
    requires Placed(arena, code, arena[id].jt, jtOffset) && Placed(arena, code, arena[id].jf, jfOffset)
    ensures var longer := BlockCode(arena[id], |code| + jtOffset, |code| + jfOffset) + code;
            Checked(longer, PACKED_SIZE) && Placed(arena, longer, id, -|longer|)
  {
    var b := arena[id];
    var jt, jf := |code| + jtOffset, |code| + jfOffset;
    var jump := EmitJmp(b.op, if b.SyscallEntry? then b.number else b.value, jt, jf);
    var longer := BlockCode(b, jt, jf) + code;
    EmitJmpChecked(b.op, if b.SyscallEntry? then b.number else b.value, jt, jf, code, PACKED_SIZE);
    if b.WideAtom? {
      var load := SockFilter(LdAbs, 0, 0, b.offset);
      assert longer == [load] + (jump + code);
      PrependChecked([load], jump + code, PACKED_SIZE);
    }
    forall mem: seq<Byte>, a: nat {:trigger Denote(arena, id, mem, a)}
      ensures Run(longer[0..], mem, a) == Denote(arena, id, mem, a)
    {
      assert longer[0..] == longer;
      if b.SyscallEntry? {
        EmitJmpLands(b.op, b.number, jt, jf, code, mem, a);
      } else {
        assert longer[1..] == jump + code;
        if b.offset + 4 <= |mem| {
          EmitJmpLands(b.op, b.value, jt, jf, code, mem, Load(mem, b.offset).value);
        }
      }
    }
  }

  lemma LeafPlaced(arena: Arena, code: Program, id: BlockId)
    requires WellFormed(arena) && id < |arena| && !IsBranch(arena[id])
    requires code == [] || Checked(code, PACKED_SIZE)
    ensures var longer := Instructions(arena[id]) + code;
            Checked(longer, PACKED_SIZE) && Placed(arena, longer, id, -|longer|)
  {
    var b := arena[id];
    var longer := Instructions(b) + code;
    assert Checked(Instructions(b), PACKED_SIZE);
    if code != [] {
      CheckedAppend(Instructions(b), code, PACKED_SIZE);
    } else {
      assert longer == Instructions(b);
    }
    forall mem: seq<Byte>, a: nat {:trigger Denote(arena, id, mem, a)}
      ensures Run(longer[0..], mem, a) == Denote(arena, id, mem, a)
    {
      assert longer[0..] == longer;
      CheckedReturns(Instructions(b), code, PACKED_SIZE, mem, a);
    }
  }

  class FlatteningVisitor {
    const archNr: U32
    const kill: Action
    var visited: set<BlockId>
    var instructions: Program
    var offsets: map<BlockId, int>

    constructor (archNr: U32, kill: Action)
      ensures this.archNr == archNr && this.kill == kill
      ensures visited == {} && instructions == [] && offsets == map[]
    {
      this.archNr, this.kill := archNr, kill;
      visited, instructions, offsets := {}, [], map[];
    }

    /** Every block with an offset has code at that offset that means what the block means. */
    ghost predicate Valid(arena: Arena)
      reads this
    {
      && WellFormed(arena)
      && offsets.Keys <= visited
      && (instructions == [] <==> offsets == map[])
      && (instructions != [] ==> Checked(instructions, PACKED_SIZE))
      && forall id :: id in offsets ==> Placed(arena, instructions, id, offsets[id])
    }

    /** Blocks that were entered and whose instructions are not emitted yet. */
    ghost function Pending(): set<BlockId>
      reads this
    {
      visited - offsets.Keys
    }

    function Distance(arena: Arena, id: BlockId): (d: nat)
      requires Valid(arena) && id in offsets
      reads this
      ensures d < |instructions|
    {
      offsets[id] + |instructions|
    }

    method Visit(arena: Arena, id: BlockId)
      requires Valid(arena) && id < |arena| && id in visited && id !in offsets
      requires !arena[id].Atom?
      requires IsBranch(arena[id]) ==> arena[id].jt in offsets && arena[id].jf in offsets
      modifies this`instructions, this`offsets
      ensures Valid(arena)
      ensures offsets == old(offsets)[id := -|instructions|]
    {
      var b := arena[id];
      var code: Program;
      if IsBranch(b) {
        code := BlockCode(b, Distance(arena, b.jt), Distance(arena, b.jf));
        BranchPlaced(arena, instructions, id, offsets[b.jt], offsets[b.jf]);
      } else {
        code := Instructions(b);
        LeafPlaced(arena, instructions, id);
      }
      forall other | other in offsets
        ensures Placed(arena, code + instructions, other, offsets[other])
      {
        PlacedPrepend(arena, instructions, code, other, offsets[other]);
      }
      instructions := code + instructions;
      offsets := offsets[id := -|instructions|];
    }

    /** block.accept(visitor): depth first, each shared block emitted once. */
    method Accept(arena: Arena, id: BlockId)
      requires Valid(arena) && id < |arena| && Lowered(arena, id)
      requires forall p :: p in Pending() ==> id < p
      modifies this
      ensures Valid(arena) && id in offsets
      ensures Pending() == old(Pending()) && old(visited) <= visited
      ensures forall p :: p in old(offsets) ==> p in offsets && offsets[p] == old(offsets[p])
      ensures forall p :: p in offsets && p !in old(offsets) ==> p <= id
      ensures id !in old(visited) ==> Distance(arena, id) == 0
      ensures id in old(visited) ==> instructions == old(instructions)
      decreases id
    {
      if id in visited {
        assert id !in Pending();
        return;
      }
      visited := visited + {id};
      assert Pending() == old(Pending()) + {id};
      var b := arena[id];
      if IsBranch(b) {
        Accept(arena, b.jt);
        Accept(arena, b.jf);
      }
      assert id in Pending();
      Visit(arena, id);
    }

    /** ValidateArch(next).accept(visitor).  Its jump over the kill action is written as an
        8-bit offset from the distance of `next`, which therefore has to be the last block emitted. */
    method AcceptValidateArch(arena: Arena, next: BlockId)
      requires Valid(arena) && next < |arena| && Lowered(arena, next) && Pending() == {}
      requires next in visited ==> next in offsets && Distance(arena, next) == 0
      modifies this
      ensures Checked(instructions, PACKED_SIZE)
      ensures forall mem: seq<Byte>, a: nat {:trigger Run(instructions, mem, a)} :: |mem| >= HEADER_SIZE ==>
                Run(instructions, mem, a) ==
                  if Load(mem, 4).value == archNr then Denote(arena, next, mem, Load(mem, 0).value)
                  else Returned(RetValue(kill))
    {
      Accept(arena, next);
      assert Distance(arena, next) == 0;
      ghost var rest := instructions;
      assert rest[0..] == rest;
      var code := ValidateArchCode(archNr, kill, Distance(arena, next));
      ValidateArchRuns(archNr, kill, rest);
      instructions := code + instructions;
      forall mem: seq<Byte>, a: nat {:trigger Run(instructions, mem, a)} | |mem| >= HEADER_SIZE
        ensures Run(instructions, mem, a) ==
                  if Load(mem, 4).value == archNr then Denote(arena, next, mem, Load(mem, 0).value)
                  else Returned(RetValue(kill))
      {
        assert Run(rest, mem, Load(mem, 0).value) == Denote(arena, next, mem, Load(mem, 0).value);
      }
    }
  }

  /** The syscall number and the architecture. */
  const HEADER_SIZE: nat := 8

  function ValidateArchCode(archNr: U32, kill: Action, distance: nat): Program {
    [SockFilter(LdAbs, 0, 0, 4), SockFilter(Jmp(Jeq), distance + 1, 0, archNr), Return(kill), SockFilter(LdAbs, 0, 0, 0)]
  }

  lemma {:induction false} ValidateArchRuns(archNr: U32, kill: Action, rest: Program)
    requires Checked(rest, PACKED_SIZE)
    ensures var code := ValidateArchCode(archNr, kill, 0) + rest;
            && Checked(code, PACKED_SIZE)
            && forall mem: seq<Byte>, a: nat {:trigger Run(code, mem, a)} :: |mem| >= HEADER_SIZE ==>
                 Run(code, mem, a) == if Load(mem, 4).value == archNr then Run(rest, mem, Load(mem, 0).value)
                                      else Returned(RetValue(kill))
  {
    var head := ValidateArchCode(archNr, kill, 0);
    var code := head + rest;
    PrependChecked(head, rest, PACKED_SIZE);
    forall mem: seq<Byte>, a: nat {:trigger Run(code, mem, a)} | |mem| >= HEADER_SIZE
      ensures Run(code, mem, a) == if Load(mem, 4).value == archNr then Run(rest, mem, Load(mem, 0).value)
                                   else Returned(RetValue(kill))
    {
      var w := Load(mem, 4).value;
      var s1 := [head[1]] + ([head[2]] + ([head[3]] + rest));
      assert code[1..] == s1;
      assert Run(code, mem, a) == Run(s1, mem, w);
      RunJump(head[1], [head[2]] + ([head[3]] + rest), mem, w);
      assert Drop([head[2]] + ([head[3]] + rest), 1) == [head[3]] + rest;
      assert ([head[3]] + rest)[1..] == rest;
    }
  }

  /** Flattening preserves meaning on every DAG, shared blocks included. */
  method FlattenDag(arena: Arena, root: BlockId) returns (code: Program)
    requires WellFormed(arena) && root < |arena| && Lowered(arena, root)
    ensures Checked(code, PACKED_SIZE)
    ensures forall mem: seq<Byte>, a: nat {:trigger Run(code, mem, a)} :: Run(code, mem, a) == Denote(arena, root, mem, a)
  {
    var visitor := new FlatteningVisitor(0, KillProcess);
    visitor.Accept(arena, root);
    code := visitor.instructions;
    assert code[|code| + visitor.offsets[root]..] == code;
    forall mem: seq<Byte>, a: nat {:trigger Run(code, mem, a)}
      ensures Run(code, mem, a) == Denote(arena, root, mem, a)
    {
      var meaning := Denote(arena, root, mem, a);
    }
  }
}
