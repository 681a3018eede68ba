/** The Python compiler and the C compiler agree on every policy both can express. */
module Agreement {
  import opened Bits
  import opened Machine
  import opened Filters
  import opened Lowering
  import opened FilterStatement
  import PolicyCompiler
  import opened Compare
  import opened SyscallFilter
  import opened PolicyItems
  import opened PolicyFile

  /** A line of the C policy language as a statement of the Python compiler. */
  function AsStatement(line: Line, action: BlockAction): Statement {
    match line.body
    case AlwaysAllow => Statement(line.nr, 1, [], Allow)
    case AlwaysReturn(ret) => Statement(line.nr, 1, [], ReturnAction(ret, action))
    case Conditional(dnf, clause) => Statement(line.nr, 1, [Filter(dnf, Allow)], ClauseAction(clause, action))
  }

  function AsStatements(lines: seq<Line>, action: BlockAction): seq<Statement> {
    if lines == [] then [] else [AsStatement(lines[0], action)] + AsStatements(lines[1..], action)
  }

  /** The same policy for the Python compiler, killing threads as the C compiler does on a foreign architecture. */
  function AsPolicy(lines: seq<Line>, action: BlockAction): PolicyCompiler.Policy {
    PolicyCompiler.Policy(AsStatements(lines, action), Fallback(action), KillThread, false)
  }

  lemma {:induction false} StatementAgrees(line: Line, action: BlockAction, args: seq<U64>)
    ensures StatementAction(AsStatement(line, action), false, args) == LineAction(line.body, action, args)
  {
    var s := AsStatement(line, action);
    if line.body.Conditional? {
      assert FirstMatch(s.filters[1..], s.last, args) == s.last;
    }
  }

  lemma {:induction false} ListedAgrees(lines: seq<Line>, action: BlockAction, nr: U32, args: seq<U64>)
    ensures PolicyCompiler.Listed(AsStatements(lines, action), false, Fallback(action), nr, args) ==
            FirstLine(lines, action, nr, args)
  {
    if lines != [] {
      StatementAgrees(lines[0], action, args);
      ListedAgrees(lines[1..], action, nr, args);
      assert AsStatements(lines, action)[1..] == AsStatements(lines[1..], action);
    }
  }

  lemma {:induction false} StatementsInRange(lines: seq<Line>, action: BlockAction, args: nat)
    requires InRange(lines, args)
    ensures |AsStatements(lines, action)| == |lines|
    ensures forall i :: 0 <= i < |lines| ==> FiltersInRange(AsStatements(lines, action)[i].filters, args)
  {
    hide DnfInRange;
    if lines != [] {
      assert BodyInRange(lines[0].body, args);
      assert forall i :: 0 <= i < |lines[1..]| ==> lines[1..][i] == lines[i + 1];
      StatementsInRange(lines[1..], action, args);
    }
  }

  /** On the data that the kernel shows a filter, with its six arguments and with whatever the scratch memory holds, the
      two compiled programs give the same verdict. */
  lemma {:induction false} CompilersAgree(c: Program, py: Program, lines: seq<Line>, o: Options, archNr: U32,
                                          d: SyscallData,
                                          m: seq<nat>)
    requires Decides(c, lines, o, archNr) && PolicyCompiler.Implements(py, AsPolicy(lines, o.action), archNr, 64)
    requires o.logging == [] && InRange(lines, KERNEL_ARGUMENTS)
    requires |d.args| == KERNEL_ARGUMENTS && |m| == MEM_WORDS
    ensures Exec(c, Pack(d), 0, m) == Exec(py, Pack(d), 0, m)
  {
    hide Pack, Exec, Run, FiltersInRange;
    ListedAgrees(lines, o.action, d.nr, d.args);
    StatementsInRange(lines, o.action, KERNEL_ARGUMENTS);
    var x, y := Exec(c, Pack(d), 0, m), Run(py, Pack(d), 0);
    ExecExtendsRun(py, Pack(d), 0, m);
  }
}
