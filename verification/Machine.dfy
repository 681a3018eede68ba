/** The classic BPF machine that seccomp filters run on.

    `Run` is the machine of `simulate` in tools/bpf.py (one register); `Exec` adds
    the scratch memory that the programs of bpf.c use.  Both execute a suffix of
    a program: every BPF jump is relative and forward, so the instructions before
    the current one never matter. */
module Machine {
  import opened Bits

  datatype Comparison = Jeq | Jgt | Jge | Jset

  datatype Code = LdAbs | LdMem | St | Ja | Jmp(op: Comparison) | Ret

  datatype SockFilter = SockFilter(code: Code, jt: nat, jf: nat, k: nat)

  type Program = seq<SockFilter>

  const RET_KILL_PROCESS: nat := 0x8000_0000
  const RET_KILL_THREAD: nat := 0
  const RET_TRAP: nat := 0x0003_0000
  const RET_ERRNO: nat := 0x0005_0000
  const RET_TRACE: nat := 0x7ff0_0000
  const RET_USER_NOTIF: nat := 0x7fc0_0000
  const RET_LOG: nat := 0x7ffc_0000
  const RET_ALLOW: nat := 0x7fff_0000
  const RET_DATA_SIZE: nat := 0x1_0000

  datatype Action = KillProcess | KillThread | Trap | Errno(errno: int) | Trace | UserNotif | Log | Allow

  /** The value a filter returns to the kernel for an action; an errno is cut to 16 bits. */
  function RetValue(action: Action): nat {
    match action
    case KillProcess => RET_KILL_PROCESS
    case KillThread => RET_KILL_THREAD
    case Trap => RET_TRAP
    case Errno(n) => RET_ERRNO + n % RET_DATA_SIZE
    case Trace => RET_TRACE
    case UserNotif => RET_USER_NOTIF
    case Log => RET_LOG
    case Allow => RET_ALLOW
  }

  function Return(action: Action): SockFilter {
    SockFilter(Ret, 0, 0, RetValue(action))
  }

  datatype Option<T> = None | Some(value: T)

  /** How `simulate` names a returned value. */
  function Decode(k: nat): Option<Action> {
    if k == RET_KILL_PROCESS then Some(KillProcess)
    else if k == RET_KILL_THREAD then Some(KillThread)
    else if k == RET_TRAP then Some(Trap)
    else if k / RET_DATA_SIZE == RET_ERRNO / RET_DATA_SIZE then Some(Errno(k % RET_DATA_SIZE))
    else if k == RET_TRACE then Some(Trace)
    else if k == RET_USER_NOTIF then Some(UserNotif)
    else if k == RET_LOG then Some(Log)
    else if k == RET_ALLOW then Some(Allow)
    else None
  }

  function Canonical(action: Action): Action {
    if action.Errno? then Errno(action.errno % RET_DATA_SIZE) else action
  }

  lemma DecodeRetValue(action: Action)
    ensures Decode(RetValue(action)) == Some(Canonical(action))
  {
    if action.Errno? {
      var n := action.errno % RET_DATA_SIZE;
      assert (RET_ERRNO + n) / RET_DATA_SIZE == 5;
    }
  }

  /** The values of the kernel's header, both ways. */
  lemma ReturnValues(n: int)
    ensures RetValue(KillProcess) == 0x8000_0000 && Decode(0x8000_0000) == Some(KillProcess)
    ensures RetValue(KillThread) == 0 && Decode(0) == Some(KillThread)
    ensures RetValue(Trap) == 0x3_0000 && Decode(0x3_0000) == Some(Trap)
    ensures RetValue(Errno(n)) == 0x5_0000 + n % 0x1_0000
    ensures 0 <= n < 0x1_0000 ==> Decode(0x5_0000 + n) == Some(Errno(n))
    ensures RetValue(Trace) == 0x7ff0_0000 && Decode(0x7ff0_0000) == Some(Trace)
    ensures RetValue(UserNotif) == 0x7fc0_0000 && Decode(0x7fc0_0000) == Some(UserNotif)
    ensures RetValue(Log) == 0x7ffc_0000 && Decode(0x7ffc_0000) == Some(Log)
    ensures RetValue(Allow) == 0x7fff_0000 && Decode(0x7fff_0000) == Some(Allow)
  {
  }

  datatype Outcome = Returned(k: nat) | OutOfBounds | BadLoad | BadInstruction

  predicate Test(op: Comparison, a: nat, k: nat) {
    match op
    case Jeq => a == k
    case Jgt => a > k
    case Jge => a >= k
    case Jset => And(a, k) != 0
  }

  /** A comparison of 64-bit words by halves. */
  lemma TestByHalves(op: Comparison, v: U64, c: U64)
    ensures Test(op, v, c) ==
              match op
              case Jeq => Hi(v) == Hi(c) && Lo(v) == Lo(c)
              case Jgt => Hi(v) > Hi(c) || (Hi(v) == Hi(c) && Lo(v) > Lo(c))
              case Jge => Hi(v) > Hi(c) || (Hi(v) == Hi(c) && Lo(v) >= Lo(c))
              case Jset => And(Hi(v), Hi(c)) != 0 || And(Lo(v), Lo(c)) != 0
  {
    AndHalves(v, c);
  }

  /** The relative target of a conditional jump. */
  function Branch(ins: SockFilter, a: nat): nat
    requires ins.code.Jmp?
  {
    if Test(ins.code.op, a, ins.k) then ins.jt else ins.jf
  }

  function Drop(s: Program, n: nat): Program {
    if n <= |s| then s[n..] else []
  }

  function Load(mem: seq<Byte>, k: nat): (r: Option<nat>)
    ensures r.Some? <==> k + 4 <= |mem|
  {
    if k + 4 <= |mem| then Some(FromLe(mem[k..k + 4])) else None
  }

  /** Runs `s` from its first instruction with accumulator `a`, as `simulate` does. */
  function Run(s: Program, mem: seq<Byte>, a: nat): Outcome
    decreases |s|
  {
    if s == [] then OutOfBounds
    else
      var ins, rest := s[0], s[1..];
      match ins.code
      case LdAbs =>
        var w := Load(mem, ins.k);
        if w.None? then BadLoad else Run(rest, mem, w.value)
      case Ja => Run(Drop(rest, ins.k), mem, a)
      case Ret => Returned(ins.k)
      case LdMem => BadInstruction
      case St => BadInstruction
      case Jmp(_) => Run(Drop(rest, Branch(ins, a)), mem, a)
  }

  /** The number of instructions `Run` executes. */
  function Steps(s: Program, mem: seq<Byte>, a: nat): (n: nat)
    ensures n <= |s|
    decreases |s|
  {
    if s == [] then 0
    else
      var ins, rest := s[0], s[1..];
      1 + match ins.code
          case LdAbs =>
            var w := Load(mem, ins.k);
            if w.None? then 0 else Steps(rest, mem, w.value)
          case Ja => Steps(Drop(rest, ins.k), mem, a)
          case Ret => 0
          case LdMem => 0
          case St => 0
          case Jmp(_) => Steps(Drop(rest, Branch(ins, a)), mem, a)
  }

  const MEM_WORDS: nat := 16

  /** The kernel's machine: `Run` extended with the scratch words `m`. */
  function Exec(s: Program, mem: seq<Byte>, a: nat, m: seq<nat>): Outcome
    requires |m| == MEM_WORDS
    decreases |s|
  {
    if s == [] then OutOfBounds
    else
      var ins, rest := s[0], s[1..];
      match ins.code
      case LdAbs =>
        var w := Load(mem, ins.k);
        if w.None? then BadLoad else Exec(rest, mem, w.value, m)
      case LdMem => if ins.k < MEM_WORDS then Exec(rest, mem, m[ins.k], m) else BadInstruction
      case St => if ins.k < MEM_WORDS then Exec(rest, mem, a, m[ins.k := a]) else BadInstruction
      case Ja => Exec(Drop(rest, ins.k), mem, a, m)
      case Ret => Returned(ins.k)
      case Jmp(_) => Exec(Drop(rest, Branch(ins, a)), mem, a, m)
  }

  /** A program that `simulate` runs to a verdict runs to the same verdict in the kernel. */
  lemma {:induction false} ExecExtendsRun(s: Program, mem: seq<Byte>, a: nat, m: seq<nat>)
    requires |m| == MEM_WORDS
    requires Run(s, mem, a).Returned?
    ensures Exec(s, mem, a, m) == Run(s, mem, a)
    decreases |s|
  {
    var ins, rest := s[0], s[1..];
    match ins.code {
      case LdAbs => ExecExtendsRun(rest, mem, Load(mem, ins.k).value, m);
      case Ja => ExecExtendsRun(Drop(rest, ins.k), mem, a, m);
      case Ret =>
      case LdMem =>
      case St =>
      case Jmp(_) => ExecExtendsRun(Drop(rest, Branch(ins, a)), mem, a, m);
    }
  }

  // ----- Static checks -----

  /** An instruction that has `after` instructions behind it can neither leave the
      program, nor use an offset wider than 8 bits, nor load past `size` bytes. */
  predicate InstructionOk(ins: SockFilter, after: int, size: nat) {
    && ins.jt < 256
    && ins.jf < 256
    && !ins.code.LdMem?
    && !ins.code.St?
    && (ins.code.Jmp? ==> ins.jt < after && ins.jf < after)
    && (ins.code.Ja? ==> ins.k < after)
    && (ins.code.LdAbs? ==> 0 < after && ins.k + 4 <= size)
  }

  ghost predicate Checked(s: Program, size: nat) {
    && s != []
    && forall i {:trigger s[i]} :: 0 <= i < |s| ==> InstructionOk(s[i], |s| - 1 - i, size)
  }

  lemma CheckedSuffix(s: Program, n: nat, size: nat)
    requires Checked(s, size) && n < |s|
    ensures Checked(s[n..], size)
  {
    forall i {:trigger s[n..][i]} | 0 <= i < |s[n..]|
      ensures InstructionOk(s[n..][i], |s[n..]| - 1 - i, size)
    {
      assert s[n..][i] == s[n + i];
    }
  }

  lemma CheckedAppend(s: Program, t: Program, size: nat)
    requires Checked(s, size) && Checked(t, size)
    ensures Checked(s + t, size)
  {
    forall i {:trigger (s + t)[i]} | 0 <= i < |s + t|
      ensures InstructionOk((s + t)[i], |s + t| - 1 - i, size)
    {
      if i < |s| {
        assert InstructionOk(s[i], |s| - 1 - i, size);
      } else {
        assert InstructionOk(t[i - |s|], |t| - 1 - (i - |s|), size);
      }
    }
  }

  /** A checked program always reaches a return if its loads are in bounds, stops at a load if they are not, and nothing
      appended to it is ever reached. */
  lemma {:induction false} CheckedReturns(s: Program, t: Program, size: nat, mem: seq<Byte>, a: nat)
    requires Checked(s, size)
    ensures Run(s, mem, a).Returned? || (|mem| < size && Run(s, mem, a).BadLoad?)
    ensures Run(s + t, mem, a) == Run(s, mem, a)
    decreases |s|
  {
    var ins, rest := s[0], s[1..];
    assert InstructionOk(ins, |s| - 1, size);
    assert (s + t)[0] == ins && (s + t)[1..] == rest + t;
    match ins.code {
      case LdAbs =>
        if ins.k + 4 <= |mem| {
          CheckedSuffix(s, 1, size);
          CheckedReturns(rest, t, size, mem, Load(mem, ins.k).value);
        }
      case Ja => CheckedJump(s, t, ins.k, size, mem, a);
      case Ret =>
      case LdMem =>
      case St =>
      case Jmp(_) => CheckedJump(s, t, Branch(ins, a), size, mem, a);
    }
  }

  lemma {:induction false} CheckedJump(s: Program, t: Program, n: nat, size: nat, mem: seq<Byte>, a: nat)
    requires Checked(s, size) && n + 1 < |s|
    ensures var out := Run(Drop(s[1..], n), mem, a); out.Returned? || (|mem| < size && out.BadLoad?)
    ensures Run(Drop(s[1..] + t, n), mem, a) == Run(Drop(s[1..], n), mem, a)
    decreases |s|, 0
  {
    CheckedSuffix(s, n + 1, size);
    assert Drop(s[1..], n) == s[n + 1..];
    assert Drop(s[1..] + t, n) == s[n + 1..] + t;
    CheckedReturns(s[n + 1..], t, size, mem, a);
  }

  // ----- Syscall data -----

  datatype SyscallData = SyscallData(nr: U32, arch: U32, ip: U64, args: seq<U64>)

  const MAX_SYSCALL_ARGUMENTS: nat := 7
  const PACKED_SIZE: nat := 72

  function PackArgs(args: seq<U64>): (s: seq<Byte>)
    ensures |s| == 8 * |args|
  {
    if args == [] then [] else LeBytes(args[0], 8) + PackArgs(args[1..])
  }

  /** struct seccomp_data as the filter sees it, byte by byte. */
  function Pack(d: SyscallData): (s: seq<Byte>)
    ensures |s| == 16 + 8 * |d.args|
  {
    LeBytes(d.nr, 4) + LeBytes(d.arch, 4) + LeBytes(d.ip, 8) + PackArgs(d.args)
  }

  function ArgOffset(index: nat, hi: bool): nat {
    16 + 8 * index + if hi then 4 else 0
  }

  lemma {:induction false} PackedArg(args: seq<U64>, i: nat)
    requires i < |args|
    ensures PackArgs(args)[8 * i..8 * i + 8] == LeBytes(args[i], 8)
  {
    if i > 0 {
      PackedArg(args[1..], i - 1);
      assert PackArgs(args)[8 * i..8 * i + 8] == PackArgs(args[1..])[8 * (i - 1)..8 * (i - 1) + 8];
    }
  }

  /** Loads see the syscall number, the architecture and the two halves of every argument. */
  lemma LoadsNumbers(d: SyscallData)
    ensures Load(Pack(d), 0) == Some(d.nr)
    ensures Load(Pack(d), 4) == Some(d.arch)
  {
    Pow2Words();
    assert Pack(d)[0..4] == LeBytes(d.nr, 4);
    assert Pack(d)[4..8] == LeBytes(d.arch, 4);
    LeRoundTrip(d.nr, 4);
    LeRoundTrip(d.arch, 4);
  }

  lemma PackedWord(d: SyscallData, i: nat)
    requires i < |d.args|
    ensures Pack(d)[16 + 8 * i..16 + 8 * i + 8] == LeBytes(d.args[i], 8)
  {
    PackedArg(d.args, i);
    assert Pack(d)[16 + 8 * i..16 + 8 * i + 8] == PackArgs(d.args)[8 * i..8 * i + 8];
  }

  lemma {:induction false} LoadHalves(mem: seq<Byte>, at: nat, v: U64)
    requires at + 8 <= |mem| && mem[at..at + 8] == LeBytes(v, 8)
    ensures Load(mem, at) == Some(Lo(v)) && Load(mem, at + 4) == Some(Hi(v))
  {
    hide LeBytes, FromLe;
    LeWordHalves(v);
    assert mem[at..at + 4] == mem[at..at + 8][..4] == LeBytes(Lo(v), 4);
    assert mem[at + 4..at + 4 + 4] == mem[at..at + 8][4..] == LeBytes(Hi(v), 4);
    Pow2Words();
    LeRoundTrip(Lo(v), 4);
    LeRoundTrip(Hi(v), 4);
  }

  lemma LoadsArg(d: SyscallData, i: nat)
    requires i < |d.args|
    ensures Load(Pack(d), ArgOffset(i, false)) == Some(Lo(d.args[i]))
    ensures Load(Pack(d), ArgOffset(i, true)) == Some(Hi(d.args[i]))
  {
    hide Pack, LeBytes, Load;
    PackedWord(d, i);
    LoadHalves(Pack(d), 16 + 8 * i, d.args[i]);
  }

  // ----- One instruction at a time -----

  /** The little-endian word at `k`. */
  function WordAt(mem: seq<Byte>, k: nat): nat
    requires k + 4 <= |mem|
  {
    var b0: nat, b1: nat, b2: nat, b3: nat := mem[k], mem[k + 1], mem[k + 2], mem[k + 3];
    b0 + 0x100 * b1 + 0x1_0000 * b2 + 0x100_0000 * b3
  }

  /** Executing the instruction at `pc` with accumulator `a` leads to `pc'` with accumulator `a'`. */
  ghost predicate Goes(s: Program, mem: seq<Byte>, pc: nat, a: nat, pc': nat, a': nat)
    requires pc < |s|
  {
    var ins := s[pc];
    match ins.code
    case LdAbs =>
      ins.k + 4 <= |mem| && pc' == pc + 1 && a' == WordAt(mem, ins.k)
    case Ja => pc' == pc + 1 + ins.k && a' == a
    case Jmp(Jeq) => pc' == pc + 1 + (if a == ins.k then ins.jt else ins.jf) && a' == a
    case Jmp(Jgt) => pc' == pc + 1 + (if a > ins.k then ins.jt else ins.jf) && a' == a
    case Jmp(Jge) => pc' == pc + 1 + (if a >= ins.k then ins.jt else ins.jf) && a' == a
    case Jmp(Jset) => pc' == pc + 1 + (if And(a, ins.k) != 0 then ins.jt else ins.jf) && a' == a
    case _ => false
  }

  /** Positions and accumulators of an execution from `pc` to the instruction after which it ends. */
  ghost predicate Visits(s: Program, mem: seq<Byte>, pc: nat, a: nat, path: seq<nat>, acc: seq<nat>) {
    && |path| == |acc|
    && (path == [] <==> pc >= |s|)
    && (path != [] ==> path[0] == pc && acc[0] == a)
    && (forall i :: 0 <= i < |path| ==> path[i] < |s|)
    && (forall i :: 0 <= i < |path| - 1 ==> Goes(s, mem, path[i], acc[i], path[i + 1], acc[i + 1]))
  }

  /** How an execution ends behind its last position. */
  ghost predicate Ends(s: Program, mem: seq<Byte>, pc: nat, a: nat, out: Outcome)
    requires pc < |s|
  {
    var ins := s[pc];
    match ins.code
    case Ret => out == Returned(ins.k)
    case LdMem => out == BadInstruction
    case St => out == BadInstruction
    case _ =>
      if ins.code.LdAbs? && ins.k + 4 > |mem| then out == BadLoad
      else
        && out == OutOfBounds
        && exists pc', a' {:trigger Goes(s, mem, pc, a, pc', a')} :: pc' >= |s| && Goes(s, mem, pc, a, pc', a')
  }

  lemma LoadIs(mem: seq<Byte>, k: nat)
    requires k + 4 <= |mem|
    ensures Load(mem, k) == Some(WordAt(mem, k))
  {
    var w := mem[k..k + 4];
    FromLeFour(w[0], w[1], w[2], w[3]);
    assert w == [w[0], w[1], w[2], w[3]];
  }

  lemma FromLeFour(b0: Byte, b1: Byte, b2: Byte, b3: Byte)
    ensures FromLe([b0, b1, b2, b3]) == b0 + 256 * (b1 + 256 * (b2 + 256 * b3))
  {
    var w := [b0, b1, b2, b3];
    assert w[1..] == [b1, b2, b3] && [b1, b2, b3][1..] == [b2, b3] && [b2, b3][1..] == [b3] && [b3][1..] == [];
    assert FromLe([b3]) == b3;
    assert FromLe([b2, b3]) == b2 + 256 * b3;
    assert FromLe([b1, b2, b3]) == b1 + 256 * (b2 + 256 * b3);
  }

  /** One executed instruction of `Run` and `Steps`. */
  ghost predicate Follows(s: Program, mem: seq<Byte>, pc: nat, a: nat, pc': nat, a': nat)
    requires pc < |s|
  {
    && Goes(s, mem, pc, a, pc', a') && pc < pc'
    && Run(Drop(s, pc), mem, a) == Run(Drop(s, pc'), mem, a')
    && Steps(Drop(s, pc), mem, a) == 1 + Steps(Drop(s, pc'), mem, a')
  }

  lemma {:induction false} LoadGoes(s: Program, mem: seq<Byte>, pc: nat, a: nat)
    requires pc < |s| && s[pc].code.LdAbs? && s[pc].k + 4 <= |mem|
    ensures Follows(s, mem, pc, a, pc + 1, WordAt(mem, s[pc].k))
  {
    hide FromLe, WordAt;
    LoadIs(mem, s[pc].k);
    var here := Drop(s, pc);
    assert here[0] == s[pc] && here[1..] == Drop(s, pc + 1);
  }

  lemma BranchGoes(s: Program, mem: seq<Byte>, pc: nat, a: nat, n: nat)
    requires pc < |s|
    requires (s[pc].code.Ja? && n == s[pc].k) || (s[pc].code.Jmp? && n == Branch(s[pc], a))
    ensures Goes(s, mem, pc, a, pc + 1 + n, a)
  {
    hide WordAt, And;
  }

  lemma {:induction false} JumpGoes(s: Program, mem: seq<Byte>, pc: nat, a: nat, n: nat)
    requires pc < |s|
    requires (s[pc].code.Ja? && n == s[pc].k) || (s[pc].code.Jmp? && n == Branch(s[pc], a))
    ensures Follows(s, mem, pc, a, pc + 1 + n, a)
  {
    hide Run, Steps, Branch, Goes;
    var here := Drop(s, pc);
    assert here[0] == s[pc] && here[1..] == s[pc + 1..];
    BranchGoes(s, mem, pc, a, n);
    JumpRuns(here, mem, a, n);
    DropDrop(s, pc + 1, n);
  }

  lemma {:induction false} StopsHere(s: Program, mem: seq<Byte>, pc: nat, a: nat)
    requires pc < |s| && !s[pc].code.Ja? && !s[pc].code.Jmp? && !(s[pc].code.LdAbs? && s[pc].k + 4 <= |mem|)
    ensures Steps(Drop(s, pc), mem, a) == 1
    ensures Ends(s, mem, pc, a, Run(Drop(s, pc), mem, a))
  {
    var here := Drop(s, pc);
    assert here[0] == s[pc];
  }

  lemma {:induction false} Executes(s: Program, mem: seq<Byte>, pc: nat, a: nat) returns (goes: bool, pc': nat, a': nat)
    requires pc < |s|
    ensures goes ==> Follows(s, mem, pc, a, pc', a')
    ensures !goes ==> Steps(Drop(s, pc), mem, a) == 1
    ensures !goes ==> Ends(s, mem, pc, a, Run(Drop(s, pc), mem, a))
  {
    hide *;
    var ins := s[pc];
    if ins.code.LdAbs? && ins.k + 4 <= |mem| {
      LoadGoes(s, mem, pc, a);
      goes, pc', a' := true, pc + 1, WordAt(mem, ins.k);
    } else if ins.code.Ja? || ins.code.Jmp? {
      var n := if ins.code.Ja? then ins.k else Branch(ins, a);
      JumpGoes(s, mem, pc, a, n);
      goes, pc', a' := true, pc + 1 + n, a;
    } else {
      StopsHere(s, mem, pc, a);
      goes, pc', a' := false, pc, a;
    }
  }

  /** `Run` and `Steps` in one-instruction terms: from `pc` there is a chain of positions, as long as `Steps`
      says, and its last instruction gives the outcome. */
  lemma {:induction false} RunIsVisits(s: Program, mem: seq<Byte>, pc: nat, a: nat)
    returns (path: seq<nat>, acc: seq<nat>)
    ensures Visits(s, mem, pc, a, path, acc) && |path| == Steps(Drop(s, pc), mem, a)
    ensures path == [] ==> Run(Drop(s, pc), mem, a) == OutOfBounds
    ensures path != [] ==> Ends(s, mem, path[|path| - 1], acc[|path| - 1], Run(Drop(s, pc), mem, a))
    decreases |s| - pc
  {
    hide Goes, Ends, Run, Steps;
    path, acc := [], [];
    if pc >= |s| {
      NothingRuns(mem, a);
    } else {
      var goes, pc', a' := Executes(s, mem, pc, a);
      if goes {
        var path', acc' := RunIsVisits(s, mem, pc', a');
        path, acc := [pc] + path', [a] + acc';
        if path' == [] {
          NothingRuns(mem, a');
          LeavesProgram(s, mem, pc, a, pc', a');
        }
      } else {
        path, acc := [pc], [a];
      }
    }
  }

  lemma {:induction false} NothingRuns(mem: seq<Byte>, a: nat)
    ensures Run([], mem, a) == OutOfBounds && Steps([], mem, a) == 0
  {
  }

  lemma LeavesProgram(s: Program, mem: seq<Byte>, pc: nat, a: nat, pc': nat, a': nat)
    requires pc < |s| <= pc' && Goes(s, mem, pc, a, pc', a')
    ensures Ends(s, mem, pc, a, OutOfBounds)
  {
  }

  // ----- simulate -----

  datatype Simulation = Verdict(cost: nat, action: Action) | Raised

  function Padded(args: seq<U64>): (r: seq<U64>)
    ensures |r| == MAX_SYSCALL_ARGUMENTS
    ensures forall i :: 0 <= i < MAX_SYSCALL_ARGUMENTS ==> r[i] == if i < |args| then args[i] else 0
  {
    seq(MAX_SYSCALL_ARGUMENTS, i requires 0 <= i < MAX_SYSCALL_ARGUMENTS => if i < |args| then args[i] else 0)
  }

  function Verdicts(instructions: Program, mem: seq<Byte>): Simulation {
    var out := Run(instructions, mem, 0);
    if out.Returned? && Decode(out.k).Some? then Verdict(Steps(instructions, mem, 0), Decode(out.k).value) else Raised
  }

  function Conclude(ins: SockFilter, cost: nat): Simulation {
    if ins.code.Ret? && Decode(ins.k).Some? then Verdict(cost, Decode(ins.k).value) else Raised
  }

  /** `simulate` of tools/bpf.py: missing arguments are zero, surplus ones are ignored. */
  method Simulate(instructions: Program, arch: U32, nr: U32, args: seq<U64>) returns (r: Simulation)
    ensures r == Verdicts(instructions, Pack(SyscallData(nr, arch, 0, Padded(args))))
  {
    r := Interpret(instructions, Pack(SyscallData(nr, arch, 0, Padded(args))));
  }

  /** The interpreter loop, proved to compute `Run` and `Steps`. */
  method Interpret(instructions: Program, mem: seq<Byte>) returns (r: Simulation)
    ensures r == Verdicts(instructions, mem)
  {
    hide Run, Steps, Reaches, Verdicts, Drop, Decode, FromLe;
    var register: nat, pc: nat, cost: nat := 0, 0, 0;
    StepStart(instructions, mem);
    while pc < |instructions|
      invariant Reaches(instructions, mem, pc, register, cost)
    {
      var ins := instructions[pc];
      if ins.code.LdAbs? {
        var w := Load(mem, ins.k);
        StepLoad(instructions, mem, pc, register, cost);
        if w.None? {
          return Raised;
        }
        register := w.value;
        pc := pc + 1;
      } else if ins.code.Ja? {
        StepJump(instructions, mem, pc, register, cost, ins.k);
        pc := pc + 1 + ins.k;
      } else if ins.code.Jmp? {
        StepJump(instructions, mem, pc, register, cost, Branch(ins, register));
        pc := pc + 1 + Branch(ins, register);
      } else {
        StepStop(instructions, mem, pc, register, cost);
        return Conclude(ins, cost + 1);
      }
      cost := cost + 1;
    }
    StepEnd(instructions, mem, pc, register, cost);
    r := Raised;
  }

  /** After `cost` instructions the whole run comes down to a run from `pc` with accumulator `a`. */
  ghost predicate Reaches(s: Program, mem: seq<Byte>, pc: nat, a: nat, cost: nat) {
    && Run(s, mem, 0) == Run(Drop(s, pc), mem, a)
    && Steps(s, mem, 0) == cost + Steps(Drop(s, pc), mem, a)
  }

  lemma StepStart(s: Program, mem: seq<Byte>)
    ensures Reaches(s, mem, 0, 0, 0)
  {
    assert Drop(s, 0) == s;
  }

  lemma StepLoad(s: Program, mem: seq<Byte>, pc: nat, a: nat, cost: nat)
    requires Reaches(s, mem, pc, a, cost) && pc < |s| && s[pc].code.LdAbs?
    ensures var w := Load(mem, s[pc].k);
            if w.Some? then Reaches(s, mem, pc + 1, w.value, cost + 1) else Verdicts(s, mem) == Raised
  {
    var here := Drop(s, pc);
    assert here[0] == s[pc] && here[1..] == s[pc + 1..];
  }

  lemma StepJump(s: Program, mem: seq<Byte>, pc: nat, a: nat, cost: nat, n: nat)
    requires Reaches(s, mem, pc, a, cost) && pc < |s|
    requires (s[pc].code.Ja? && n == s[pc].k) || (s[pc].code.Jmp? && n == Branch(s[pc], a))
    ensures Reaches(s, mem, pc + 1 + n, a, cost + 1)
  {
    hide Run, Steps, Branch;
    var here := Drop(s, pc);
    assert here[0] == s[pc] && here[1..] == s[pc + 1..];
    JumpRuns(here, mem, a, n);
    DropDrop(s, pc + 1, n);
  }

  lemma {:induction false} JumpRuns(s: Program, mem: seq<Byte>, a: nat, n: nat)
    requires s != []
    requires (s[0].code.Ja? && n == s[0].k) || (s[0].code.Jmp? && n == Branch(s[0], a))
    ensures Run(s, mem, a) == Run(Drop(s[1..], n), mem, a)
    ensures Steps(s, mem, a) == 1 + Steps(Drop(s[1..], n), mem, a)
  {
  }

  lemma StepStop(s: Program, mem: seq<Byte>, pc: nat, a: nat, cost: nat)
    requires Reaches(s, mem, pc, a, cost) && pc < |s|
    requires s[pc].code.Ret? || s[pc].code.LdMem? || s[pc].code.St?
    ensures Verdicts(s, mem) == Conclude(s[pc], cost + 1)
  {
    var here := Drop(s, pc);
    assert here[0] == s[pc];
  }

  lemma StepEnd(s: Program, mem: seq<Byte>, pc: nat, a: nat, cost: nat)
    requires Reaches(s, mem, pc, a, cost) && pc >= |s|
    ensures Verdicts(s, mem) == Raised
  {
  }

  lemma DropDrop(s: Program, m: nat, n: nat)
    requires m <= |s|
    ensures Drop(s[m..], n) == Drop(s, m + n)
  {
  }
}
