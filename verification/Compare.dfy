/** Argument comparisons of bpf.c, 64-bit little-endian build: 64-bit words are
    compared by 32-bit halves kept in scratch memory. */
module Compare {
  import opened Bits
  import opened Machine
  import opened Filters
  import opened Labels

  const KERNEL_ARGUMENTS: nat := 6

  function Stmt(code: Code, k: nat): SockFilter { SockFilter(code, 0, 0, k) }

  function JumpIf(op: Comparison, k: nat, jt: nat, jf: nat): SockFilter { SockFilter(Jmp(op), jt, jf, k) }

  // ----- What the emitters write -----

  function LoadArgCode(arg: nat): Program {
    [Stmt(LdAbs, ArgOffset(arg, false)), Stmt(St, 0), Stmt(LdAbs, ArgOffset(arg, true)), Stmt(St, 1)]
  }

  function CompJeqCode(c: U64, jt: nat, jf: nat): Program {
    [JumpIf(Jeq, Hi(c), 0, 2 + jf), Stmt(LdMem, 0), JumpIf(Jeq, Lo(c), jt, jf)]
  }

  /** bpf_comp_jgt64 and bpf_comp_jge64 differ in the last test only. */
  function CompOrderCode(op: Comparison, c: U64, jt: nat, jf: nat): Program {
    (if Hi(c) == 0 then [JumpIf(Jgt, Hi(c), 2 + jt, 0)]
     else [JumpIf(Jgt, Hi(c), 3 + jt, 0), JumpIf(Jeq, Hi(c), 0, 2 + jf)])
    + [Stmt(LdMem, 0), JumpIf(op, Lo(c), jt, jf)]
  }

  function CompJsetCode(mask: U64, jt: nat, jf: nat): Program {
    [JumpIf(Jset, Hi(mask), 2 + jt, 0), Stmt(LdMem, 0), JumpIf(Jset, Lo(mask), jt, jf)]
  }

  function CompJinCode(mask: U64, jt: nat, jf: nat): Program {
    CompJsetCode(TWO64 - 1 - mask, jf, jt)
  }

  /** The comparison skips one instruction when `op` holds and falls through otherwise. */
  function CompCode(op: Operator, c: U64): Program {
    match op
    case Eq => CompJeqCode(c, 1, 0)
    case Ne => CompJeqCode(c, 0, 1)
    case Lt => CompOrderCode(Jge, c, 0, 1)
    case Le => CompOrderCode(Jgt, c, 0, 1)
    case Gt => CompOrderCode(Jgt, c, 1, 0)
    case Ge => CompOrderCode(Jge, c, 1, 0)
    case Set => CompJsetCode(c, 1, 0)
    case In => CompJinCode(c, 1, 0)
  }

  function ArgCompCode(op: Operator, arg: nat, c: U64, id: nat): Program {
    LoadArgCode(arg) + CompCode(op, c) + [SetJumpLabel(id)]
  }

  /** bpf_arg_comp_len */
  function ArgCompLen(op: Operator, c: U64): nat {
    if op == Lt || op == Le || op == Gt || op == Ge then
      if c / TWO32 == 0 then 4 + 3 + 1 else 4 + 4 + 1
    else 4 + 3 + 1
  }

  // ----- The emitters, writing through an advancing position -----

  method LoadArg(filter: array<SockFilter>, at: nat, arg: nat) returns (n: nat)
    requires at + 4 <= filter.Length
    modifies filter
    ensures n == 4 && filter[at..at + n] == LoadArgCode(arg)
    ensures filter[..at] == old(filter[..at])
  {
    filter[at] := Stmt(LdAbs, ArgOffset(arg, false));
    filter[at + 1] := Stmt(St, 0);
    filter[at + 2] := Stmt(LdAbs, ArgOffset(arg, true));
    filter[at + 3] := Stmt(St, 1);
    n := 4;
  }

  method CompJeq(filter: array<SockFilter>, at: nat, c: U64, jt: nat, jf: nat) returns (n: nat)
    requires at + 3 <= filter.Length
    modifies filter
    ensures n == 3 && filter[at..at + n] == CompJeqCode(c, jt, jf)
    ensures filter[..at] == old(filter[..at])
  {
    filter[at] := JumpIf(Jeq, Hi(c), 0, 2 + jf);
    filter[at + 1] := Stmt(LdMem, 0);
    filter[at + 2] := JumpIf(Jeq, Lo(c), jt, jf);
    n := 3;
  }

  method CompOrder(filter: array<SockFilter>, at: nat, op: Comparison, c: U64, jt: nat, jf: nat) returns (n: nat)
    requires at + (if Hi(c) == 0 then 3 else 4) <= filter.Length
    modifies filter
    ensures n == (if Hi(c) == 0 then 3 else 4) && filter[at..at + n] == CompOrderCode(op, c, jt, jf)
    ensures filter[..at] == old(filter[..at])
  {
    var curr := at;
    if Hi(c) == 0 {
      filter[curr] := JumpIf(Jgt, Hi(c), 2 + jt, 0);
      curr := curr + 1;
    } else {
      filter[curr] := JumpIf(Jgt, Hi(c), 3 + jt, 0);
      filter[curr + 1] := JumpIf(Jeq, Hi(c), 0, 2 + jf);
      curr := curr + 2;
    }
    filter[curr] := Stmt(LdMem, 0);
    filter[curr + 1] := JumpIf(op, Lo(c), jt, jf);
    n := curr + 2 - at;
  }

  method CompJset(filter: array<SockFilter>, at: nat, mask: U64, jt: nat, jf: nat) returns (n: nat)
    requires at + 3 <= filter.Length
    modifies filter
    ensures n == 3 && filter[at..at + n] == CompJsetCode(mask, jt, jf)
    ensures filter[..at] == old(filter[..at])
  {
    filter[at] := JumpIf(Jset, Hi(mask), 2 + jt, 0);
    filter[at + 1] := Stmt(LdMem, 0);
    filter[at + 2] := JumpIf(Jset, Lo(mask), jt, jf);
    n := 3;
  }

  /** The comparison chosen by the operator, its branches flipped for the negative ones. */
  method Comp(filter: array<SockFilter>, at: nat, op: Operator, c: U64) returns (n: nat)
    requires at + |CompCode(op, c)| <= filter.Length
    modifies filter
    ensures n == |CompCode(op, c)| && filter[at..at + n] == CompCode(op, c)
    ensures filter[..at] == old(filter[..at])
  {
    var flip := op == Ne || op == Lt || op == Le;
    var jt, jf := if flip then 0 else 1, if flip then 1 else 0;
    match op {
      case Eq => n := CompJeq(filter, at, c, jt, jf);
      case Ne => n := CompJeq(filter, at, c, jt, jf);
      case Lt => n := CompOrder(filter, at, Jge, c, jt, jf);
      case Le => n := CompOrder(filter, at, Jgt, c, jt, jf);
      case Gt => n := CompOrder(filter, at, Jgt, c, jt, jf);
      case Ge => n := CompOrder(filter, at, Jge, c, jt, jf);
      case Set => n := CompJset(filter, at, c, jt, jf);
      case In => n := CompJset(filter, at, TWO64 - 1 - c, jf, jt);
    }
  }

  lemma ArgCompLenExact(op: Operator, arg: nat, c: U64, id: nat)
    ensures |ArgCompCode(op, arg, c, id)| == ArgCompLen(op, c) == 4 + |CompCode(op, c)| + 1
  {
  }

  /** bpf_arg_comp: allocates exactly the announced number of instructions and fills them all. */
  method ArgComp(op: Operator, arg: nat, c: U64, id: nat) returns (filter: array<SockFilter>, len: nat)
    ensures fresh(filter)
    ensures len == filter.Length == ArgCompLen(op, c)
    ensures filter[..] == ArgCompCode(op, arg, c, id)
  {
    hide CompCode, LoadArgCode;
    ArgCompLenExact(op, arg, c, id);
    filter := new SockFilter[ArgCompLen(op, c)](_ => Stmt(Ret, 0));
    var curr := LoadArg(filter, 0, arg);
    ghost var loaded := filter[..4];
    var n := Comp(filter, curr, op, c);
    ghost var compared := filter[4..4 + n];
    curr := curr + n;
    filter[curr] := SetJumpLabel(id);
    len := curr + 1;
    assert filter[..] == filter[..4] + filter[4..4 + n] + [filter[4 + n]];
    assert filter[..4] == loaded && filter[4..4 + n] == compared;
  }

  // ----- What the emitted code does -----

  function Plains<L>(code: Program): (s: seq<Sym<L>>)
    ensures |s| == |code| && forall i :: 0 <= i < |s| ==> s[i] == Plain(code[i])
  {
    seq(|code|, i requires 0 <= i < |code| => Plain(code[i]))
  }

  /** A comparison block with a symbolic target. */
  function ArgCompSyms<L>(op: Operator, arg: nat, c: U64, target: L): seq<Sym<L>> {
    Plains(LoadArgCode(arg) + CompCode(op, c)) + [Jump(target)]
  }

  lemma {:induction false} StepPlain<L>(ins: SockFilter, rest: seq<Sym<L>>, mem: seq<Byte>, a: nat, m: seq<nat>)
    requires |m| == MEM_WORDS
    ensures ins.code.LdAbs? && Load(mem, ins.k).Some? ==>
              SymExec([Plain(ins)] + rest, mem, a, m) == SymExec(rest, mem, Load(mem, ins.k).value, m)
    ensures ins.code.LdMem? && ins.k < MEM_WORDS ==>
              SymExec([Plain(ins)] + rest, mem, a, m) == SymExec(rest, mem, m[ins.k], m)
    ensures ins.code.St? && ins.k < MEM_WORDS ==>
              SymExec([Plain(ins)] + rest, mem, a, m) == SymExec(rest, mem, a, m[ins.k := a])
    ensures ins.code.Jmp? ==>
              SymExec([Plain(ins)] + rest, mem, a, m) == SymExec(DropSym(rest, Branch(ins, a)), mem, a, m)
    ensures ins.code.Ret? ==> SymExec([Plain(ins)] + rest, mem, a, m) == Returned(ins.k)
  {
    var s := [Plain(ins)] + rest;
    assert s[0] == Plain(ins) && s[1..] == rest;
  }

  /** Loading an argument leaves its high half in the accumulator and both halves in memory. */
  lemma LoadArgRuns<L>(arg: nat, rest: seq<Sym<L>>, d: SyscallData, a: nat, m: seq<nat>) returns (m': seq<nat>)
    requires arg < |d.args| && |m| == MEM_WORDS
    ensures |m'| == MEM_WORDS && m'[0] == Lo(d.args[arg])
    ensures SymExec(Plains(LoadArgCode(arg)) + rest, Pack(d), a, m) == SymExec(rest, Pack(d), Hi(d.args[arg]), m')
  {
    hide SymExec, Pack, Load;
    var code, v := LoadArgCode(arg), d.args[arg];
    var s3 := [Plain(code[3])] + rest;
    var s2 := [Plain(code[2])] + s3;
    var s1 := [Plain(code[1])] + s2;
    assert Plains<L>(code) + rest == [Plain(code[0])] + s1;
    LoadsArg(d, arg);
    StepPlain(code[0], s1, Pack(d), a, m);
    var m1 := m[0 := Lo(v)];
    StepPlain(code[1], s2, Pack(d), Lo(v), m);
    StepPlain(code[2], s3, Pack(d), Lo(v), m1);
    m' := m1[1 := Hi(v)];
    StepPlain(code[3], rest, Pack(d), Hi(v), m1);
  }

  /** Where a comparison over the final jump lands: on the jump, or past it. */
  function Land<L>(n: nat, jump: Sym<L>, rest: seq<Sym<L>>): seq<Sym<L>>
  {
    if n == 0 then [jump] + rest else rest
  }

  /** high test, swap in the low half, low test. */
  lemma ThreeRuns<L>(code: Program, jump: Sym<L>, rest: seq<Sym<L>>, mem: seq<Byte>, a: nat, m: seq<nat>)
    returns (n: nat, a': nat)
    requires |m| == MEM_WORDS && |code| == 3
    requires code[0].code.Jmp? && code[1] == Stmt(LdMem, 0) && code[2].code.Jmp?
    requires Branch(code[0], a) in {0, 2, 3} && code[2].jt <= 1 && code[2].jf <= 1
    ensures SymExec(Plains(code) + ([jump] + rest), mem, a, m) == SymExec(Land(n, jump, rest), mem, a', m)
    ensures n == if Branch(code[0], a) == 0 then Branch(code[2], m[0]) else Branch(code[0], a) - 2
  {
    hide SymExec;
    var last := [jump] + rest;
    var s2 := [Plain(code[2])] + last;
    var s1 := [Plain(code[1])] + s2;
    assert Plains<L>(code) + last == [Plain(code[0])] + s1;
    StepPlain(code[0], s1, mem, a, m);
    assert DropSym(last, 0) == last && DropSym(last, 1) == rest;
    if Branch(code[0], a) == 0 {
      assert DropSym(s1, 0) == s1;
      StepPlain(code[1], s2, mem, a, m);
      StepPlain(code[2], last, mem, m[0], m);
      n, a' := Branch(code[2], m[0]), m[0];
    } else {
      assert DropSym(s1, 2) == last && DropSym(s1, 3) == rest;
      n, a' := Branch(code[0], a) - 2, a;
    }
  }

  /** An extra equality test on the high half in front of the other three. */
  lemma FourRuns<L>(code: Program, jump: Sym<L>, rest: seq<Sym<L>>, mem: seq<Byte>, a: nat, m: seq<nat>)
    returns (n: nat, a': nat)
    requires |m| == MEM_WORDS && |code| == 4
    requires code[0].code.Jmp? && code[1].code.Jmp? && code[2] == Stmt(LdMem, 0) && code[3].code.Jmp?
    requires Branch(code[0], a) in {0, 3, 4} && Branch(code[1], a) in {0, 2, 3} && code[3].jt <= 1 && code[3].jf <= 1
    ensures SymExec(Plains(code) + ([jump] + rest), mem, a, m) == SymExec(Land(n, jump, rest), mem, a', m)
    ensures n == if Branch(code[0], a) != 0 then Branch(code[0], a) - 3
                 else if Branch(code[1], a) == 0 then Branch(code[3], m[0]) else Branch(code[1], a) - 2
  {
    hide SymExec;
    var last := [jump] + rest;
    var three: seq<Sym<L>> := Plains(code[1..]) + last;
    assert Plains<L>(code) + last == [Plain(code[0])] + three;
    StepPlain(code[0], three, mem, a, m);
    if Branch(code[0], a) == 0 {
      assert DropSym(three, 0) == three;
      n, a' := ThreeRuns(code[1..], jump, rest, mem, a, m);
    } else {
      assert DropSym(three, 3) == last && DropSym(three, 4) == rest;
      n, a' := Branch(code[0], a) - 3, a;
    }
  }

  /** With the high half in the accumulator and the low half in memory, the comparison passes the jump exactly
      when it holds. */
  lemma CompRuns<L>(op: Operator, v: U64, c: U64, jump: Sym<L>, rest: seq<Sym<L>>, mem: seq<Byte>, m: seq<nat>)
    returns (a': nat)
    requires |m| == MEM_WORDS && m[0] == Lo(v)
    ensures SymExec(Plains(CompCode(op, c)) + ([jump] + rest), mem, Hi(v), m) ==
            SymExec(Land(if Holds(op, v, c) then 1 else 0, jump, rest), mem, a', m)
  {
    var code := CompCode(op, c);
    var n: nat;
    var k := if op.In? then TWO64 - 1 - c else c;
    CompTests(op, v, c);
    hide SymExec, And;
    if |code| == 3 {
      n, a' := ThreeRuns(code, jump, rest, mem, Hi(v), m);
    } else {
      n, a' := FourRuns(code, jump, rest, mem, Hi(v), m);
    }
  }

  /** Each operator as a 64-bit test, by halves. */
  lemma CompTests(op: Operator, v: U64, c: U64)
    ensures match op
            case Eq => Holds(op, v, c) == (Hi(v) == Hi(c) && Lo(v) == Lo(c))
            case Ne => Holds(op, v, c) == !(Hi(v) == Hi(c) && Lo(v) == Lo(c))
            case Gt => Holds(op, v, c) == (Hi(v) > Hi(c) || (Hi(v) == Hi(c) && Lo(v) > Lo(c)))
            case Le => Holds(op, v, c) == !(Hi(v) > Hi(c) || (Hi(v) == Hi(c) && Lo(v) > Lo(c)))
            case Ge => Holds(op, v, c) == (Hi(v) > Hi(c) || (Hi(v) == Hi(c) && Lo(v) >= Lo(c)))
            case Lt => Holds(op, v, c) == !(Hi(v) > Hi(c) || (Hi(v) == Hi(c) && Lo(v) >= Lo(c)))
            case Set => Holds(op, v, c) == (And(Hi(v), Hi(c)) != 0 || And(Lo(v), Lo(c)) != 0)
            case In => Holds(op, v, c) == !(And(Hi(v), Hi(TWO64 - 1 - c)) != 0 || And(Lo(v), Lo(TWO64 - 1 - c)) != 0)
  {
    hide And;
    Halves(v);
    Halves(c);
    match op {
      case Set => AndHalves(v, c);
      case In =>
        AndHalves(v, TWO64 - 1 - c);
        Pow2Words();
        AndComplement(64, v, c);
      case _ =>
    }
  }

  /** The block from bpf_arg_comp falls past its final label jump exactly when the comparison holds. */
  lemma ArgCompRuns<L>(op: Operator, arg: nat, c: U64, target: L, rest: seq<Sym<L>>, d: SyscallData, a: nat,
                       m: seq<nat>)
    returns (a': nat, m': seq<nat>)
    requires arg < |d.args| && |m| == MEM_WORDS
    ensures |m'| == MEM_WORDS
    ensures SymExec(ArgCompSyms(op, arg, c, target) + rest, Pack(d), a, m) ==
              if Holds(op, d.args[arg], c) then SymExec(rest, Pack(d), a', m')
              else SymJump(rest, target, Pack(d), a', m')
  {
    hide Holds, Pack, SymJump, CompCode, LoadArgCode;
    var jump: Sym<L> := Jump(target);
    var tail := Plains(CompCode(op, c)) + ([jump] + rest);
    assert ArgCompSyms(op, arg, c, target) + rest == Plains(LoadArgCode(arg)) + tail;
    m' := LoadArgRuns(arg, tail, d, a, m);
    a' := CompRuns(op, d.args[arg], c, jump, rest, Pack(d), m');
    assert ([jump] + rest)[0] == jump && ([jump] + rest)[1..] == rest;
  }
}
