/** What the policy compiler of syscall_filter.c emits, with its labels, and what
    that program decides. */
module SyscallFilter {
  import opened Bits
  import opened Machine
  import opened Filters
  import opened Labels
  import opened Compare

  // ----- Policies -----

  /** The return clause of a policy line: `return <errno>`, or a bare `return`. */
  datatype ReturnClause = ReturnErrno(errno: int) | ReturnDefault

  datatype Body =
    | AlwaysAllow
    | AlwaysReturn(ret: ReturnClause)
    | Conditional(dnf: Dnf, clause: Option<ReturnClause>)

  datatype Line = Line(name: string, nr: U32, body: Body)

  datatype BlockAction = RetKill | RetTrap | RetLog | RetKillProcess

  function Fallback(action: BlockAction): Action {
    match action
    case RetKill => KillThread
    case RetTrap => Trap
    case RetLog => Log
    case RetKillProcess => KillProcess
  }

  function ReturnAction(ret: ReturnClause, action: BlockAction): Action {
    if ret.ReturnErrno? then Errno(ret.errno) else Fallback(action)
  }

  function ClauseAction(clause: Option<ReturnClause>, action: BlockAction): Action {
    if clause.Some? then ReturnAction(clause.value, action) else Fallback(action)
  }

  /** What a line says about a call of its syscall. */
  function LineAction(body: Body, action: BlockAction, args: seq<U64>): Action {
    match body
    case AlwaysAllow => Allow
    case AlwaysReturn(ret) => ReturnAction(ret, action)
    case Conditional(dnf, clause) => if DnfHolds(dnf, args) then Allow else ClauseAction(clause, action)
  }

  /** The first line that names the syscall decides. */
  function FirstLine(lines: seq<Line>, action: BlockAction, nr: U32, args: seq<U64>): Action {
    if lines == [] then Fallback(action)
    else if lines[0].nr == nr then LineAction(lines[0].body, action, args)
    else FirstLine(lines[1..], action, nr, args)
  }

  /** What a compiled policy answers: kill on a foreign architecture, then the syscalls needed for logging, then the
      lines, then the default. */
  function FilterDecision(lines: seq<Line>, logging: seq<U32>, action: BlockAction, archNr: U32,
                          d: SyscallData): Action {
    if d.arch != archNr then KillThread
    else if d.nr in logging then Allow
    else FirstLine(lines, action, d.nr, d.args)
  }

  // ----- Emitted code -----

  datatype Name = Entry(name: string) | GroupEnd(nr: nat, group: nat) | Success(nr: nat)

  type Syms = seq<Sym<Name>>

  function AtomsSyms(nr: nat, group: nat, atoms: seq<AtomExpr>): Syms {
    if atoms == [] then []
    else ArgCompSyms(atoms[0].op, atoms[0].arg, atoms[0].value, GroupEnd(nr, group)) + AtomsSyms(nr, group, atoms[1..])
  }

  function GroupTail(nr: nat, group: nat): Syms {
    [Jump(Success(nr)), Mark(GroupEnd(nr, group))]
  }

  function GroupsSyms(nr: nat, group: nat, dnf: Dnf): Syms
    decreases |dnf|
  {
    if dnf == [] then []
    else AtomsSyms(nr, group, dnf[0]) + GroupTail(nr, group) + GroupsSyms(nr, group + 1, dnf[1..])
  }

  function SuccessSyms(nr: nat): Syms {
    [Mark(Success(nr)), Plain(Return(Allow))]
  }

  function BodySyms(nr: nat, body: Body, action: BlockAction): Syms {
    match body
    case AlwaysAllow => []
    case AlwaysReturn(ret) => [Plain(Return(ReturnAction(ret, action)))]
    case Conditional(dnf, clause) =>
      GroupsSyms(nr, 0, dnf) + [Plain(Return(ClauseAction(clause, action)))] + SuccessSyms(nr)
  }

  /** The arg filter block of a line, behind its entry label. */
  function LineSyms(line: Line, action: BlockAction): Syms {
    if line.body.AlwaysAllow? then [] else [Mark(Entry(line.name))] + BodySyms(line.nr, line.body, action)
  }

  /** The row of a line in the jump table. */
  function RowSyms(line: Line): Syms {
    [Plain(JumpIf(Jeq, line.nr, 0, 1)), if line.body.AlwaysAllow? then Plain(Return(Allow)) else Jump(Entry(line.name))]
  }

  function Rows(lines: seq<Line>): Syms {
    if lines == [] then [] else Rows(lines[..|lines| - 1]) + RowSyms(lines[|lines| - 1])
  }

  function ArgSyms(lines: seq<Line>, action: BlockAction): Syms {
    if lines == [] then [] else ArgSyms(lines[..|lines| - 1], action) + LineSyms(lines[|lines| - 1], action)
  }

  function LogRow(nr: U32): Syms {
    [Plain(JumpIf(Jeq, nr, 0, 1)), Plain(Return(Allow))]
  }

  function LogRows(logging: seq<U32>): Syms {
    if logging == [] then [] else LogRows(logging[..|logging| - 1]) + LogRow(logging[|logging| - 1])
  }

  function ArchCheck(archNr: U32): Program {
    [Stmt(LdAbs, 4), JumpIf(Jeq, archNr, 1, 0), Return(KillThread)]
  }

  function Prologue(archNr: U32): Syms {
    Plains(ArchCheck(archNr) + [Stmt(LdAbs, 0)])
  }

  function FilterSyms(lines: seq<Line>, logging: seq<U32>, action: BlockAction, archNr: U32): Syms {
    Prologue(archNr) + LogRows(logging) + Rows(lines) + [Plain(Return(Fallback(action)))] + ArgSyms(lines, action)
  }

  // ----- Marks -----

  ghost predicate NoMarks(s: Syms) {
    forall x :: x in s ==> !x.Mark?
  }

  lemma {:induction false} AtomsNoMarks(nr: nat, group: nat, atoms: seq<AtomExpr>)
    ensures NoMarks(AtomsSyms(nr, group, atoms))
  {
    if atoms != [] {
      AtomsNoMarks(nr, group, atoms[1..]);
    }
  }

  lemma {:induction false} GroupsMarks(nr: nat, group: nat, dnf: Dnf)
    ensures forall x :: x in GroupsSyms(nr, group, dnf) && x.Mark? ==> x.name.GroupEnd?
    decreases |dnf|
  {
    if dnf != [] {
      GroupsMarks(nr, group + 1, dnf[1..]);
      AtomsNoMarks(nr, group, dnf[0]);
    }
  }

  lemma {:induction false} RowsNoMarks(lines: seq<Line>)
    ensures NoMarks(Rows(lines))
  {
    if lines != [] {
      RowsNoMarks(lines[..|lines| - 1]);
    }
  }

  lemma {:induction false} ArgMarks(lines: seq<Line>, action: BlockAction, name: string)
    requires forall i :: 0 <= i < |lines| ==> lines[i].name != name
    ensures Mark(Entry(name)) !in ArgSyms(lines, action)
  {
    if lines != [] {
      var line := lines[|lines| - 1];
      ArgMarks(lines[..|lines| - 1], action, name);
      if line.body.Conditional? {
        GroupsMarks(line.nr, 0, line.body.dnf);
      }
    }
  }

  // ----- Meaning of a line -----

  /** From anywhere in `rest` on, whatever the registers hold, a jump to the success label ends in `yes` and falling
      through ends in `no`. */
  ghost predicate Leads(rest: Syms, nr: nat, mem: seq<Byte>, yes: Outcome, no: Outcome) {
    && (forall a: nat, m: seq<nat> {:trigger SymJump(rest, Success(nr), mem, a, m)} :: |m| == MEM_WORDS ==>
          SymJump(rest, Success(nr), mem, a, m) == yes)
    && (forall a: nat, m: seq<nat> {:trigger SymExec(rest, mem, a, m)} :: |m| == MEM_WORDS ==>
          SymExec(rest, mem, a, m) == no)
  }

  lemma {:induction false} JumpSkips(s: Syms, rest: Syms, name: Name, mem: seq<Byte>, a: nat, m: seq<nat>)
    requires |m| == MEM_WORDS && Mark(name) !in s
    ensures SymJump(s + rest, name, mem, a, m) == SymJump(rest, name, mem, a, m)
  {
    FindSkips(s, rest, name);
    var at := Find(rest, name);
    if at.Some? {
      assert (s + rest)[|s| + at.value..] == rest[at.value..];
    }
  }

  lemma {:induction false} JumpHere(s: Syms, rest: Syms, name: Name, mem: seq<Byte>, a: nat, m: seq<nat>)
    requires |m| == MEM_WORDS && Mark(name) !in s
    ensures SymJump(s + ([Mark(name)] + rest), name, mem, a, m) == SymExec(rest, mem, a, m)
  {
    var here := [Mark(name)] + rest;
    JumpSkips(s, here, name, mem, a, m);
    assert here[0] == Mark(name);
    assert Find(here, name) == Some(0);
    assert here[0..] == here && here[1..] == rest;
  }

  /** A conjunction jumps to success if all atoms hold and to its own end otherwise. */
  lemma {:induction false} GroupRuns(nr: nat, group: nat, atoms: seq<AtomExpr>, rest: Syms, d: SyscallData, a: nat,
                                     m: seq<nat>,
                                     yes: Outcome, no: Outcome)
    requires |m| == MEM_WORDS && Leads(rest, nr, Pack(d), yes, no)
    requires forall i :: 0 <= i < |atoms| ==> atoms[i].arg < |d.args|
    ensures SymExec(AtomsSyms(nr, group, atoms) + (GroupTail(nr, group) + rest), Pack(d), a, m) ==
            if ClauseHolds(atoms, d.args) then yes else no
  {
    hide Pack, SymExec, SymJump, ArgCompSyms, ClauseHolds;
    var tail := GroupTail(nr, group) + rest;
    if atoms == [] {
      ClauseEmpty(d.args);
      assert AtomsSyms(nr, group, atoms) + tail == [Jump(Success(nr))] + ([Mark(GroupEnd(nr, group))] + rest);
      JumpStep(Success(nr), [Mark(GroupEnd(nr, group))] + rest, Pack(d), a, m);
      JumpSkips([Mark(GroupEnd(nr, group))], rest, Success(nr), Pack(d), a, m);
    } else {
      var atom, end := atoms[0], GroupEnd(nr, group);
      var more := AtomsSyms(nr, group, atoms[1..]);
      assert AtomsSyms(nr, group, atoms) + tail == ArgCompSyms(atom.op, atom.arg, atom.value, end) + (more + tail);
      var a', m' := ArgCompRuns(atom.op, atom.arg, atom.value, end, more + tail, d, a, m);
      GroupRuns(nr, group, atoms[1..], rest, d, a', m', yes, no);
      AtomsNoMarks(nr, group, atoms[1..]);
      assert more + tail == (more + [Jump(Success(nr))]) + ([Mark(end)] + rest);
      JumpHere(more + [Jump(Success(nr))], rest, end, Pack(d), a', m');
      ClauseCons(atoms, d.args);
    }
  }

  lemma ClauseEmpty(args: seq<U64>)
    ensures ClauseHolds([], args)
  {
  }

  lemma ClauseCons(atoms: seq<AtomExpr>, args: seq<U64>)
    requires atoms != [] && atoms[0].arg < |args|
    ensures ClauseHolds(atoms, args) == (Holds(atoms[0].op, args[atoms[0].arg], atoms[0].value) && ClauseHolds(atoms[1..], args))
  {
    assert forall i :: 0 < i < |atoms| ==> atoms[i] == atoms[1..][i - 1];
  }

  lemma {:induction false} JumpStep(name: Name, rest: Syms, mem: seq<Byte>, a: nat, m: seq<nat>)
    requires |m| == MEM_WORDS
    ensures SymExec([Jump(name)] + rest, mem, a, m) == SymJump(rest, name, mem, a, m)
  {
    var s: Syms := [Jump(name)] + rest;
    assert s[0] == Jump(name) && s[1..] == rest;
  }

  lemma DnfCons(dnf: Dnf, args: seq<U64>)
    requires dnf != []
    ensures DnfHolds(dnf, args) == (ClauseHolds(dnf[0], args) || DnfHolds(dnf[1..], args))
  {
    if DnfHolds(dnf[1..], args) {
      var i :| 0 <= i < |dnf[1..]| && ClauseHolds(dnf[1..][i], args);
      assert dnf[i + 1] == dnf[1..][i];
    }
    if DnfHolds(dnf, args) {
      var i :| 0 <= i < |dnf| && ClauseHolds(dnf[i], args);
      if i > 0 {
        assert dnf[1..][i - 1] == dnf[i];
      }
    }
  }

  lemma GroupsCons(nr: nat, group: nat, dnf: Dnf, rest: Syms)
    requires dnf != []
    ensures GroupsSyms(nr, group, dnf) + rest ==
            AtomsSyms(nr, group, dnf[0]) + (GroupTail(nr, group) + (GroupsSyms(nr, group + 1, dnf[1..]) + rest))
  {
    hide AtomsSyms, GroupTail;
    var x, y, z := AtomsSyms(nr, group, dnf[0]), GroupTail(nr, group), GroupsSyms(nr, group + 1, dnf[1..]);
    assert (x + y + z) + rest == x + (y + (z + rest));
  }

  lemma {:induction false} GroupsRun(nr: nat, group: nat, dnf: Dnf, rest: Syms, d: SyscallData, yes: Outcome,
                                     no: Outcome)
    requires Leads(rest, nr, Pack(d), yes, no) && DnfInRange(dnf, |d.args|)
    ensures Leads(GroupsSyms(nr, group, dnf) + rest, nr, Pack(d), yes, if DnfHolds(dnf, d.args) then yes else no)
    decreases |dnf|
  {
    hide Pack, SymExec, SymJump, DnfHolds, ClauseHolds, AtomsSyms, GroupTail;
    if dnf == [] {
      assert GroupsSyms(nr, group, dnf) + rest == rest;
      DnfEmpty(d.args);
    } else {
      GroupsRun(nr, group + 1, dnf[1..], rest, d, yes, no);
      GroupsStep(nr, group, dnf, rest, d, yes, if DnfHolds(dnf[1..], d.args) then yes else no);
      DnfCons(dnf, d.args);
    }
  }

  lemma DnfEmpty(args: seq<U64>)
    ensures !DnfHolds([], args)
  {
  }

  lemma {:induction false} GroupNoSuccess(nr: nat, group: nat, atoms: seq<AtomExpr>)
    ensures Mark(Success(nr)) !in AtomsSyms(nr, group, atoms) + GroupTail(nr, group)
  {
    AtomsNoMarks(nr, group, atoms);
  }

  lemma GroupsStep(nr: nat, group: nat, dnf: Dnf, rest: Syms, d: SyscallData, yes: Outcome, no: Outcome)
    requires dnf != [] && DnfInRange(dnf, |d.args|)
    requires Leads(GroupsSyms(nr, group + 1, dnf[1..]) + rest, nr, Pack(d), yes, no)
    ensures Leads(GroupsSyms(nr, group, dnf) + rest, nr, Pack(d), yes, if ClauseHolds(dnf[0], d.args) then yes else no)
  {
    hide Pack, SymExec, SymJump, ClauseHolds, AtomsSyms, GroupTail, GroupsSyms;
    var more := GroupsSyms(nr, group + 1, dnf[1..]) + rest;
    var all := GroupsSyms(nr, group, dnf) + rest;
    var skip := AtomsSyms(nr, group, dnf[0]) + GroupTail(nr, group);
    GroupNoSuccess(nr, group, dnf[0]);
    GroupsCons(nr, group, dnf, rest);
    assert all == skip + more;
    forall a: nat, m: seq<nat> {:trigger SymJump(all, Success(nr), Pack(d), a, m)} | |m| == MEM_WORDS
      ensures SymJump(all, Success(nr), Pack(d), a, m) == yes
    {
      JumpSkips(skip, more, Success(nr), Pack(d), a, m);
    }
    forall a: nat, m: seq<nat> {:trigger SymExec(all, Pack(d), a, m)} | |m| == MEM_WORDS
      ensures SymExec(all, Pack(d), a, m) == if ClauseHolds(dnf[0], d.args) then yes else no
    {
      GroupRuns(nr, group, dnf[0], more, d, a, m, yes, no);
    }
  }

  predicate BodyInRange(body: Body, args: nat) {
    body.Conditional? ==> DnfInRange(body.dnf, args)
  }

  lemma ReturnLeads(action: Action, nr: nat, rest: Syms, mem: seq<Byte>)
    ensures Leads([Plain(Return(action))] + (SuccessSyms(nr) + rest), nr, mem, Returned(RetValue(Allow)), Returned(RetValue(action)))
  {
    var ret: Syms := [Plain(Return(action))];
    var allow: Syms := [Plain(Return(Allow))] + rest;
    var s := ret + (SuccessSyms(nr) + rest);
    assert SuccessSyms(nr) + rest == [Mark(Success(nr))] + allow;
    forall a: nat, m: seq<nat> | |m| == MEM_WORDS
      ensures SymJump(s, Success(nr), mem, a, m) == Returned(RetValue(Allow))
      ensures SymExec(s, mem, a, m) == Returned(RetValue(action))
    {
      JumpHere(ret, allow, Success(nr), mem, a, m);
      StepPlain(Return(Allow), rest, mem, a, m);
      StepPlain(Return(action), SuccessSyms(nr) + rest, mem, a, m);
    }
  }

  /** The arg filter block of a line returns what the line says, whatever follows it. */
  lemma {:induction false} BodyRuns(nr: nat, body: Body, action: BlockAction, rest: Syms, d: SyscallData, a: nat,
                                    m: seq<nat>)
    requires |m| == MEM_WORDS && !body.AlwaysAllow? && BodyInRange(body, |d.args|)
    ensures SymExec(BodySyms(nr, body, action) + rest, Pack(d), a, m) == Returned(RetValue(LineAction(body, action, d.args)))
  {
    hide Pack, SymExec;
    match body {
      case AlwaysReturn(ret) => StepPlain(Return(ReturnAction(ret, action)), rest, Pack(d), a, m);
      case Conditional(dnf, clause) => ConditionalRuns(nr, dnf, ClauseAction(clause, action), rest, d, a, m);
    }
  }

  lemma {:induction false} ConditionalRuns(nr: nat, dnf: Dnf, no: Action, rest: Syms, d: SyscallData, a: nat,
                                           m: seq<nat>)
    requires |m| == MEM_WORDS && DnfInRange(dnf, |d.args|)
    ensures SymExec((GroupsSyms(nr, 0, dnf) + [Plain(Return(no))] + SuccessSyms(nr)) + rest, Pack(d), a, m) ==
            Returned(RetValue(if DnfHolds(dnf, d.args) then Allow else no))
  {
    hide Pack, SymExec, SymJump, GroupsSyms, SuccessSyms, DnfHolds, DnfInRange, RetValue;
    var groups, ret: Syms, success := GroupsSyms(nr, 0, dnf), [Plain(Return(no))], SuccessSyms(nr);
    assert (groups + ret + success) + rest == groups + (ret + (success + rest));
    ReturnLeads(no, nr, rest, Pack(d));
    GroupsRun(nr, 0, dnf, ret + (success + rest), d, Returned(RetValue(Allow)), Returned(RetValue(no)));
  }

  // ----- Meaning of the jump table -----

  /** A syscall name stands for one number, as the syscall table guarantees. */
  ghost predicate Consistent(lines: seq<Line>) {
    forall i, j :: 0 <= i < j < |lines| && lines[i].name == lines[j].name ==> lines[i].nr == lines[j].nr
  }

  ghost predicate InRange(lines: seq<Line>, args: nat) {
    forall i :: 0 <= i < |lines| ==> BodyInRange(lines[i].body, args)
  }

  lemma {:induction false} RowsJoin(a: seq<Line>, b: seq<Line>)
    ensures Rows(a + b) == Rows(a) + Rows(b)
  {
    if b == [] {
      assert a + b == a;
    } else {
      RowsJoin(a, b[..|b| - 1]);
      assert (a + b)[..|a + b| - 1] == a + b[..|b| - 1];
    }
  }

  lemma {:induction false} ArgJoin(a: seq<Line>, b: seq<Line>, action: BlockAction)
    ensures ArgSyms(a + b, action) == ArgSyms(a, action) + ArgSyms(b, action)
  {
    hide LineSyms;
    if b == [] {
      assert a + b == a;
    } else {
      ArgJoin(a, b[..|b| - 1], action);
      assert (a + b)[..|a + b| - 1] == a + b[..|b| - 1];
    }
  }

  lemma {:induction false} LogJoin(a: seq<U32>, b: seq<U32>)
    ensures LogRows(a + b) == LogRows(a) + LogRows(b)
  {
    if b == [] {
      assert a + b == a;
    } else {
      LogJoin(a, b[..|b| - 1]);
      assert (a + b)[..|a + b| - 1] == a + b[..|b| - 1];
    }
  }

  function TableEnd(lines: seq<Line>, action: BlockAction): Syms {
    [Plain(Return(Fallback(action)))] + ArgSyms(lines, action)
  }

  /** A row of the table either takes its syscall or passes on to the next row. */
  lemma {:induction false} RowRuns(nr: U32, target: Sym<Name>, rest: Syms, mem: seq<Byte>, x: U32, m: seq<nat>)
    requires |m| == MEM_WORDS
    ensures SymExec([Plain(JumpIf(Jeq, nr, 0, 1)), target] + rest, mem, x, m) ==
            if x == nr then SymExec([target] + rest, mem, x, m) else SymExec(rest, mem, x, m)
  {
    var row: Syms := [Plain(JumpIf(Jeq, nr, 0, 1)), target];
    assert row + rest == [Plain(JumpIf(Jeq, nr, 0, 1))] + ([target] + rest);
    StepPlain(JumpIf(Jeq, nr, 0, 1), [target] + rest, mem, x, m);
    assert DropSym([target] + rest, 0) == [target] + rest && DropSym([target] + rest, 1) == rest;
  }

  /** The jump of row `i` finds the block of line `i`. */
  lemma {:induction false} EntryJump(lines: seq<Line>, i: nat, action: BlockAction, d: SyscallData, m: seq<nat>)
    requires |m| == MEM_WORDS && i < |lines| && !lines[i].body.AlwaysAllow? && InRange(lines, |d.args|)
    requires forall j :: 0 <= j < i ==> lines[j].name != lines[i].name
    ensures SymJump(Rows(lines[i + 1..]) + TableEnd(lines, action), Entry(lines[i].name), Pack(d), d.nr, m) ==
            Returned(RetValue(LineAction(lines[i].body, action, d.args)))
  {
    hide Pack, SymExec, SymJump, Rows, ArgSyms, BodySyms;
    var line := lines[i];
    var entry := Entry(line.name);
    var rows, ret: Syms, before := Rows(lines[i + 1..]), [Plain(Return(Fallback(action)))], ArgSyms(lines[..i], action);
    var body, after := BodySyms(line.nr, line.body, action), ArgSyms(lines[i + 1..], action);
    ArgSplit(lines, i, action);
    assert rows + (ret + (before + ([Mark(entry)] + (body + after)))) == (rows + ret + before) + ([Mark(entry)] + (body + after));
    RowsNoMarks(lines[i + 1..]);
    ArgMarks(lines[..i], action, line.name);
    JumpHere(rows + ret + before, body + after, entry, Pack(d), d.nr, m);
    BodyRuns(line.nr, line.body, action, after, d, d.nr, m);
  }

  lemma {:induction false} ArgOne(line: Line, action: BlockAction)
    requires !line.body.AlwaysAllow?
    ensures ArgSyms([line], action) == [Mark(Entry(line.name))] + BodySyms(line.nr, line.body, action)
  {
    hide BodySyms;
    assert [line][..0] == [];
  }

  lemma {:induction false} ArgSplit(lines: seq<Line>, i: nat, action: BlockAction)
    requires i < |lines| && !lines[i].body.AlwaysAllow?
    ensures ArgSyms(lines, action) ==
            ArgSyms(lines[..i], action)
            + ([Mark(Entry(lines[i].name))] + (BodySyms(lines[i].nr, lines[i].body, action) + ArgSyms(lines[i + 1..], action)))
  {
    hide BodySyms, ArgSyms;
    var line := lines[i];
    ArgOne(line, action);
    ArgJoin([line], lines[i + 1..], action);
    ArgJoin(lines[..i], [line] + lines[i + 1..], action);
    assert lines == lines[..i] + ([line] + lines[i + 1..]);
    var mark: Syms, body, after := [Mark(Entry(line.name))], BodySyms(line.nr, line.body, action), ArgSyms(lines[i + 1..], action);
    assert (mark + body) + after == mark + (body + after);
  }

  /** The table answers with the first line that names the syscall. */
  lemma {:induction false} RowsRun(lines: seq<Line>, i: nat, action: BlockAction, d: SyscallData, m: seq<nat>)
    requires |m| == MEM_WORDS && i <= |lines| && Consistent(lines) && InRange(lines, |d.args|)
    requires forall j :: 0 <= j < i ==> lines[j].nr != d.nr
    ensures SymExec(Rows(lines[i..]) + TableEnd(lines, action), Pack(d), d.nr, m) ==
            Returned(RetValue(FirstLine(lines[i..], action, d.nr, d.args)))
    decreases |lines| - i
  {
    hide Pack, SymExec, SymJump;
    var end := TableEnd(lines, action);
    if i == |lines| {
      assert Rows(lines[i..]) + end == [Plain(Return(Fallback(action)))] + ArgSyms(lines, action);
      StepPlain(Return(Fallback(action)), ArgSyms(lines, action), Pack(d), d.nr, m);
    } else {
      var line := lines[i];
      var row, more := RowSyms(line), Rows(lines[i + 1..]) + end;
      assert lines[i..] == [line] + lines[i + 1..];
      RowsJoin([line], lines[i + 1..]);
      assert [line][..0] == [] && Rows([line]) == row;
      assert Rows(lines[i..]) + end == [row[0], row[1]] + more;
      RowRuns(line.nr, row[1], more, Pack(d), d.nr, m);
      assert lines[i..][1..] == lines[i + 1..];
      if line.nr != d.nr {
        RowsRun(lines, i + 1, action, d, m);
      } else if line.body.AlwaysAllow? {
        StepPlain(Return(Allow), more, Pack(d), d.nr, m);
      } else {
        JumpStep(Entry(line.name), more, Pack(d), d.nr, m);
        EntryJump(lines, i, action, d, m);
      }
    }
  }

  lemma {:induction false} LogRowsRun(logging: seq<U32>, rest: Syms, mem: seq<Byte>, x: U32, m: seq<nat>)
    requires |m| == MEM_WORDS
    ensures SymExec(LogRows(logging) + rest, mem, x, m) ==
            if x in logging then Returned(RetValue(Allow)) else SymExec(rest, mem, x, m)
    decreases |logging|
  {
    hide SymExec;
    if logging == [] {
      assert LogRows(logging) + rest == rest;
    } else {
      var nr := logging[0];
      var more := LogRows(logging[1..]) + rest;
      assert logging == [nr] + logging[1..];
      LogJoin([nr], logging[1..]);
      assert [nr][..0] == [] && LogRows([nr]) == LogRow(nr);
      assert LogRows(logging) + rest == [Plain(JumpIf(Jeq, nr, 0, 1)), Plain(Return(Allow))] + more;
      RowRuns(nr, Plain(Return(Allow)), more, mem, x, m);
      StepPlain(Return(Allow), more, mem, x, m);
      LogRowsRun(logging[1..], rest, mem, x, m);
    }
  }

  lemma {:induction false} PrologueRuns(archNr: U32, rest: Syms, d: SyscallData, a: nat, m: seq<nat>)
    requires |m| == MEM_WORDS
    ensures SymExec(Prologue(archNr) + rest, Pack(d), a, m) ==
            if d.arch == archNr then SymExec(rest, Pack(d), d.nr, m) else Returned(RetValue(KillThread))
  {
    hide Pack, SymExec, Load;
    LoadsNumbers(d);
    var code := ArchCheck(archNr) + [Stmt(LdAbs, 0)];
    var s3: Syms := [Plain(code[3])] + rest;
    var s2: Syms := [Plain(code[2])] + s3;
    var s1: Syms := [Plain(code[1])] + s2;
    assert Prologue(archNr) + rest == [Plain(code[0])] + s1;
    StepPlain(code[0], s1, Pack(d), a, m);
    StepPlain(code[1], s2, Pack(d), d.arch, m);
    assert DropSym(s2, 0) == s2 && DropSym(s2, 1) == s3;
    StepPlain(code[2], s3, Pack(d), d.arch, m);
    StepPlain(code[3], rest, Pack(d), d.arch, m);
  }

  /** The emitted program decides every syscall as the policy says. */
  lemma {:induction false} FilterRuns(lines: seq<Line>, logging: seq<U32>, action: BlockAction, archNr: U32,
                                      d: SyscallData, a: nat, m: seq<nat>)
    requires |m| == MEM_WORDS && Consistent(lines) && InRange(lines, |d.args|)
    ensures SymExec(FilterSyms(lines, logging, action, archNr), Pack(d), a, m) ==
            Returned(RetValue(FilterDecision(lines, logging, action, archNr, d)))
  {
    hide Pack, SymExec, Rows, LogRows, ArgSyms, Prologue, FirstLine;
    var table := Rows(lines) + TableEnd(lines, action);
    assert FilterSyms(lines, logging, action, archNr) == Prologue(archNr) + (LogRows(logging) + table);
    PrologueRuns(archNr, LogRows(logging) + table, d, a, m);
    LogRowsRun(logging, table, Pack(d), d.nr, m);
    RowsRun(lines, 0, action, d, m);
    assert lines[0..] == lines;
  }
}
