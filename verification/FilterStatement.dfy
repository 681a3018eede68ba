/** compile_filter_statement of tools/compiler.py: one syscall's filters become one
    basic block. */
module FilterStatement {
  import opened Bits
  import opened Machine
  import opened Blocks
  import opened Filters
  import opened Lowering
  import opened Flatten

  datatype Filter = Filter(expression: Dnf, action: Action)

  /** The parsed filters of one syscall: conditional ones in order, then the
      unconditional action that the parser guarantees at the end. */
  datatype Statement = Statement(number: U32, frequency: nat, filters: seq<Filter>, last: Action)

  /** What a statement promises: the action of the first filter whose expression holds. */
  function FirstMatch(filters: seq<Filter>, last: Action, args: seq<U64>): Action {
    if filters == [] then last
    else if DnfHolds(filters[0].expression, args) then filters[0].action
    else FirstMatch(filters[1..], last, args)
  }

  /** What the parser guarantees: argument indices exist, constants fit in a machine word. */
  predicate AtomOk(atom: AtomExpr, bits: nat) {
    atom.arg < MAX_SYSCALL_ARGUMENTS && (bits == 32 ==> atom.value < TWO32)
  }

  predicate ClauseOk(atoms: seq<AtomExpr>, bits: nat) {
    forall i :: 0 <= i < |atoms| ==> AtomOk(atoms[i], bits)
  }

  predicate DnfOk(dnf: Dnf, bits: nat) {
    forall i :: 0 <= i < |dnf| ==> ClauseOk(dnf[i], bits)
  }

  predicate FiltersOk(filters: seq<Filter>, bits: nat) {
    forall i :: 0 <= i < |filters| ==> DnfOk(filters[i].expression, bits)
  }

  predicate FiltersInRange(filters: seq<Filter>, args: nat) {
    forall i :: 0 <= i < |filters| ==> DnfInRange(filters[i].expression, args)
  }

  /** With arguments for all its atoms a DAG leads to `yes` when the clause holds and behaves like block `no` otherwise. */
  ghost predicate ClauseDecided(arena: Arena, id: BlockId, atoms: seq<AtomExpr>, yes: Action, no: BlockId,
                                args: seq<U64>)
    requires WellFormed(arena) && id < |arena| && no < |arena|
  {
    ClauseInRange(atoms, |args|) && Fits(arena, no, |args|) ==>
      Fits(arena, id, |args|) && Eval(arena, id, args) == if ClauseHolds(atoms, args) then yes else Eval(arena, no, args)
  }

  ghost predicate DecidesClause(arena: Arena, id: BlockId, atoms: seq<AtomExpr>, yes: Action, no: BlockId, bits: nat) {
    && WellFormed(arena) && id < |arena| && no < |arena| && FilterDag(arena, id, bits)
    && forall args: seq<U64> {:trigger ClauseDecided(arena, id, atoms, yes, no, args)} ::
         ClauseDecided(arena, id, atoms, yes, no, args)
  }

  ghost predicate DnfDecided(arena: Arena, id: BlockId, dnf: Dnf, yes: Action, no: BlockId, args: seq<U64>)
    requires WellFormed(arena) && id < |arena| && no < |arena|
  {
    DnfInRange(dnf, |args|) && Fits(arena, no, |args|) ==>
      Fits(arena, id, |args|) && Eval(arena, id, args) == if DnfHolds(dnf, args) then yes else Eval(arena, no, args)
  }

  ghost predicate DecidesDnf(arena: Arena, id: BlockId, dnf: Dnf, yes: Action, no: BlockId, bits: nat) {
    && WellFormed(arena) && id < |arena| && no < |arena| && FilterDag(arena, id, bits)
    && forall args: seq<U64> {:trigger DnfDecided(arena, id, dnf, yes, no, args)} :: DnfDecided(arena, id, dnf, yes, no, args)
  }

  ghost predicate FiltersDecided(arena: Arena, id: BlockId, filters: seq<Filter>, last: Action, args: seq<U64>)
    requires WellFormed(arena) && id < |arena|
  {
    FiltersInRange(filters, |args|) ==> Fits(arena, id, |args|) && Eval(arena, id, args) == FirstMatch(filters, last, args)
  }

  ghost predicate DecidesFilters(arena: Arena, id: BlockId, filters: seq<Filter>, last: Action, bits: nat) {
    && WellFormed(arena) && id < |arena| && FilterDag(arena, id, bits)
    && forall args: seq<U64> {:trigger FiltersDecided(arena, id, filters, last, args)} ::
         FiltersDecided(arena, id, filters, last, args)
  }

  lemma ClausePrefix(atoms: seq<AtomExpr>, k: nat, args: seq<U64>)
    requires k < |atoms|
    ensures ClauseHolds(atoms[..k + 1], args) == (ClauseHolds(atoms[..k], args) && AtomHolds(atoms[k], args))
    ensures ClauseInRange(atoms[..k + 1], |args|) ==> ClauseInRange(atoms[..k], |args|) && atoms[k].arg < |args|
  {
    assert forall i :: 0 <= i < k ==> atoms[..k][i] == atoms[..k + 1][i];
    assert atoms[..k + 1][k] == atoms[k];
  }

  /** One more atom in front of a conjunction. */
  lemma {:induction false} ExtendClause(arena: Arena, yesId: BlockId, no: BlockId, atoms: seq<AtomExpr>, k: nat,
                                        yes: Action, bits: nat)
    requires k < |atoms| && AtomOk(atoms[k], bits)
    requires DecidesClause(arena, yesId, atoms[..k], yes, no, bits) && FilterDag(arena, no, bits)
    ensures DecidesClause(arena + [NewAtom(atoms[k], yesId, no)], |arena|, atoms[..k + 1], yes, no, bits)
  {
    hide ClauseHolds, AtomHolds, ClauseInRange, Holds, Test;
    var b := NewAtom(atoms[k], yesId, no);
    var bigger := arena + [b];
    WellFormedAppend(arena, b);
    FilterDagExtended(arena, bigger, yesId, bits);
    FilterDagExtended(arena, bigger, no, bits);
    assert bigger[|arena|] == b;
    forall args: seq<U64> {:trigger ClauseDecided(bigger, |arena|, atoms[..k + 1], yes, no, args)}
      ensures ClauseDecided(bigger, |arena|, atoms[..k + 1], yes, no, args)
    {
      if ClauseInRange(atoms[..k + 1], |args|) && Fits(bigger, no, |args|) {
        ClausePrefix(atoms, k, args);
        FitsExtended(arena, bigger, no, |args|);
        assert ClauseDecided(arena, yesId, atoms[..k], yes, no, args);
        EvalExtended(arena, bigger, yesId, args);
        EvalExtended(arena, bigger, no, args);
        AtomBranches(bigger, |arena|, atoms[k], yesId, no, args);
      }
    }
  }

  /** A new atom goes on to `yesId` when it holds and to `no` otherwise. */
  lemma {:induction false} AtomBranches(arena: Arena, id: BlockId, atom: AtomExpr, yesId: BlockId, no: BlockId, args: seq<U64>)
    requires WellFormed(arena) && id < |arena| && yesId < id && no < id && arena[id] == NewAtom(atom, yesId, no)
    requires atom.arg < |args| && Fits(arena, yesId, |args|) && Fits(arena, no, |args|)
    ensures Fits(arena, id, |args|)
    ensures Eval(arena, id, args) == if AtomHolds(atom, args) then Eval(arena, yesId, args) else Eval(arena, no, args)
  {
    hide Holds, Test;
    NewAtomBranches(atom, yesId, no, args[atom.arg]);
  }

  lemma DnfPrefix(dnf: Dnf, k: nat, args: seq<U64>)
    requires k < |dnf|
    ensures DnfHolds(dnf[..k + 1], args) == (DnfHolds(dnf[..k], args) || ClauseHolds(dnf[k], args))
    ensures DnfInRange(dnf[..k + 1], |args|) ==> DnfInRange(dnf[..k], |args|) && ClauseInRange(dnf[k], |args|)
  {
    hide ClauseHolds, ClauseInRange;
    assert dnf[..k + 1][k] == dnf[k] && forall i :: 0 <= i < k ==> dnf[..k + 1][i] == dnf[..k][i];
    if DnfHolds(dnf[..k], args) {
      var i :| 0 <= i < k && ClauseHolds(dnf[..k][i], args);
      assert dnf[..k + 1][i] == dnf[..k][i];
    }
    if ClauseHolds(dnf[k], args) {
      assert dnf[..k + 1][k] == dnf[k];
    }
    if DnfHolds(dnf[..k + 1], args) {
      var i :| 0 <= i < k + 1 && ClauseHolds(dnf[..k + 1][i], args);
      if i < k {
        assert dnf[..k][i] == dnf[..k + 1][i];
      }
    }
  }

  /** The loop over one conjunction: the last comparison jumps to the action, every
      failure to `no`. */
  method CompileClause(arena: Arena, atoms: seq<AtomExpr>, yesId: BlockId, no: BlockId, bits: nat)
    returns (bigger: Arena, id: BlockId)
    requires WellFormed(arena) && yesId < |arena| && no < |arena| && arena[yesId].ActionBlock?
    requires FilterDag(arena, no, bits) && ClauseOk(atoms, bits)
    ensures arena <= bigger
    ensures DecidesClause(bigger, id, atoms, arena[yesId].action, no, bits)
  {
    bigger, id := arena, yesId;
    for k := 0 to |atoms|
      invariant arena <= bigger
      invariant DecidesClause(bigger, id, atoms[..k], arena[yesId].action, no, bits)
      invariant FilterDag(bigger, no, bits)
    {
      ExtendClause(bigger, id, no, atoms, k, arena[yesId].action, bits);
      ghost var before := bigger;
      bigger, id := bigger + [NewAtom(atoms[k], id, no)], |bigger|;
      FilterDagExtended(before, bigger, no, bits);
    }
    assert atoms[..|atoms|] == atoms;
  }

  lemma ExtendDnf(arena: Arena, soFar: BlockId, bigger: Arena, id: BlockId, dnf: Dnf, k: nat, yes: Action,
                  no: BlockId, bits: nat)
    requires k < |dnf| && arena <= bigger
    requires DecidesDnf(arena, soFar, dnf[..k], yes, no, bits)
    requires DecidesClause(bigger, id, dnf[k], yes, soFar, bits)
    ensures DecidesDnf(bigger, id, dnf[..k + 1], yes, no, bits)
  {
    hide DnfHolds, DnfInRange, ClauseHolds, ClauseInRange;
    forall args: seq<U64> {:trigger DnfDecided(bigger, id, dnf[..k + 1], yes, no, args)}
      ensures DnfDecided(bigger, id, dnf[..k + 1], yes, no, args)
    {
      if DnfInRange(dnf[..k + 1], |args|) && Fits(bigger, no, |args|) {
        DnfPrefix(dnf, k, args);
        FitsExtended(arena, bigger, no, |args|);
        assert DnfDecided(arena, soFar, dnf[..k], yes, no, args);
        EvalExtended(arena, bigger, soFar, args);
        EvalExtended(arena, bigger, no, args);
        assert ClauseDecided(bigger, id, dnf[k], yes, soFar, args);
      }
    }
  }

  method CompileDnf(arena: Arena, dnf: Dnf, yesId: BlockId, no: BlockId, bits: nat)
    returns (bigger: Arena, id: BlockId)
    requires WellFormed(arena) && yesId < |arena| && no < |arena| && arena[yesId].ActionBlock?
    requires FilterDag(arena, no, bits) && DnfOk(dnf, bits)
    ensures arena <= bigger
    ensures DecidesDnf(bigger, id, dnf, arena[yesId].action, no, bits)
  {
    bigger, id := arena, no;
    for k := 0 to |dnf|
      invariant arena <= bigger
      invariant DecidesDnf(bigger, id, dnf[..k], arena[yesId].action, no, bits)
    {
      ghost var before, soFar := bigger, id;
      bigger, id := CompileClause(bigger, dnf[k], yesId, id, bits);
      ExtendDnf(before, soFar, bigger, id, dnf, k, arena[yesId].action, no, bits);
    }
    assert dnf[..|dnf|] == dnf;
  }

  lemma ExtendFilters(arena: Arena, no: BlockId, bigger: Arena, id: BlockId, filters: seq<Filter>, last: Action,
                      bits: nat)
    requires filters != [] && arena <= bigger
    requires DecidesFilters(arena, no, filters[1..], last, bits)
    requires DecidesDnf(bigger, id, filters[0].expression, filters[0].action, no, bits)
    ensures DecidesFilters(bigger, id, filters, last, bits)
  {
    hide DnfHolds, DnfInRange;
    forall args: seq<U64> {:trigger FiltersDecided(bigger, id, filters, last, args)}
      ensures FiltersDecided(bigger, id, filters, last, args)
    {
      if FiltersInRange(filters, |args|) {
        assert forall i :: 0 <= i < |filters[1..]| ==> filters[1..][i] == filters[i + 1];
        assert FiltersDecided(arena, no, filters[1..], last, args);
        EvalExtended(arena, bigger, no, args);
        assert DnfDecided(bigger, id, filters[0].expression, filters[0].action, no, args);
      }
    }
  }

  /** The filters are walked backwards so that the first one ends up at the root. */
  method BuildFilterDag(arena: Arena, filters: seq<Filter>, last: Action, bits: nat)
    returns (bigger: Arena, id: BlockId)
    requires WellFormed(arena) && FiltersOk(filters, bits)
    ensures arena <= bigger
    ensures DecidesFilters(bigger, id, filters, last, bits)
  {
    WellFormedAppend(arena, ActionBlock(last));
    bigger, id := arena + [ActionBlock(last)], |arena|;
    for i := |filters| downto 0
      invariant arena <= bigger
      invariant DecidesFilters(bigger, id, filters[i..], last, bits)
    {
      var f := filters[i];
      ghost var before, no := bigger, id;
      WellFormedAppend(bigger, ActionBlock(f.action));
      var withAction := bigger + [ActionBlock(f.action)];
      FilterDagExtended(bigger, withAction, id, bits);
      assert withAction[|bigger|] == ActionBlock(f.action);
      bigger, id := CompileDnf(withAction, f.expression, |bigger|, id, bits);
      assert filters[i..][1..] == filters[i + 1..];
      ExtendFilters(before, no, bigger, id, filters[i..], last, bits);
    }
  }

  /** The early return of compile_filter_statement. */
  predicate TakesShortcut(s: Statement, denylist: bool) {
    !denylist && s.last == Allow
  }

  /** A block of straight BPF code that answers with the action of the first match. */
  ghost predicate FiltersBlock(b: Block, filters: seq<Filter>, last: Action, bits: nat) {
    && b.BasicBlock?
    && Checked(b.code, PACKED_SIZE)
    && forall d: SyscallData, a: nat {:trigger Run(b.code, Pack(d), a)} ::
         InScope(d, bits) && FiltersInRange(filters, |d.args|) ==>
         Run(b.code, Pack(d), a) == Returned(RetValue(FirstMatch(filters, last, d.args)))
  }

  method CompileFilterStatement(arena: Arena, s: Statement, denylist: bool, bits: nat)
    returns (bigger: Arena, filter: Option<BlockId>)
    requires WellFormed(arena) && FiltersOk(s.filters, bits)
    ensures WellFormed(bigger) && arena <= bigger
    ensures filter.None? <==> TakesShortcut(s, denylist)
    ensures filter.Some? ==> |arena| <= filter.value < |bigger|
    ensures filter.Some? ==> FiltersBlock(bigger[filter.value], s.filters, s.last, bits)
  {
    if TakesShortcut(s, denylist) {
      return arena, None;
    }
    var root, lowered;
    bigger, root := BuildFilterDag(arena, s.filters, s.last, bits);
    ghost var dag := bigger;
    bigger, lowered := Lower(bigger, root, bits);
    var code := FlattenDag(bigger, lowered);
    var block := BasicBlock(code);
    forall d: SyscallData, a: nat {:trigger Run(block.code, Pack(d), a)}
      | InScope(d, bits) && FiltersInRange(s.filters, |d.args|)
      ensures Run(block.code, Pack(d), a) == Returned(RetValue(FirstMatch(s.filters, s.last, d.args)))
    {
      assert FiltersDecided(dag, root, s.filters, s.last, d.args);
      EvalExtended(dag, bigger, root, d.args);
      var verdict := Denote(bigger, lowered, Pack(d), a);
    }
    WellFormedAppend(bigger, block);
    filter := Some(|bigger|);
    bigger := bigger + [block];
  }

  /** The action a compiled statement leads to: the early return drops its conditional filters. */
  function StatementAction(s: Statement, denylist: bool, args: seq<U64>): Action {
    if TakesShortcut(s, denylist) then Allow else FirstMatch(s.filters, s.last, args)
  }

  /** Some arguments satisfy filter `i` and none of the filters before it. */
  ghost predicate Reachable(filters: seq<Filter>, i: nat) {
    && i < |filters|
    && exists args: seq<U64> :: FirstAt(filters, i, args)
  }

  ghost predicate FirstAt(filters: seq<Filter>, i: nat, args: seq<U64>) {
    && i < |filters| && |args| == MAX_SYSCALL_ARGUMENTS
    && DnfHolds(filters[i].expression, args)
    && forall j :: 0 <= j < i ==> !DnfHolds(filters[j].expression, args)
  }

  lemma {:induction false} FirstMatchAt(filters: seq<Filter>, last: Action, args: seq<U64>, i: nat)
    requires FirstAt(filters, i, args)
    ensures FirstMatch(filters, last, args) == filters[i].action
  {
    if i > 0 {
      assert !DnfHolds(filters[0].expression, args);
      assert FirstAt(filters[1..], i - 1, args) by {
        assert forall j :: 0 <= j < i - 1 ==> filters[1..][j] == filters[j + 1];
      }
      FirstMatchAt(filters[1..], last, args, i - 1);
    }
  }

  lemma {:induction false} FirstMatchCases(filters: seq<Filter>, last: Action, args: seq<U64>) returns (i: nat)
    requires |args| == MAX_SYSCALL_ARGUMENTS
    ensures i <= |filters|
    ensures i < |filters| ==> FirstAt(filters, i, args)
    ensures i == |filters| ==> FirstMatch(filters, last, args) == last
  {
    if filters == [] {
      i := 0;
    } else if DnfHolds(filters[0].expression, args) {
      i := 0;
    } else {
      i := FirstMatchCases(filters[1..], last, args);
      i := i + 1;
      if i < |filters| {
        forall j | 0 <= j < i
          ensures !DnfHolds(filters[j].expression, args)
        {
          if j > 0 {
            assert filters[j] == filters[1..][j - 1];
          }
        }
      }
    }
  }

  /** The compiled statement keeps its promise on all arguments exactly when the early
      return is not taken or every filter that can be the first to match allows. */
  lemma StatementFaithfulIff(s: Statement, denylist: bool)
    ensures (forall args: seq<U64> :: |args| == MAX_SYSCALL_ARGUMENTS ==>
               StatementAction(s, denylist, args) == FirstMatch(s.filters, s.last, args))
            <==> (!TakesShortcut(s, denylist) || forall i: nat :: Reachable(s.filters, i) ==> s.filters[i].action == Allow)
  {
    if TakesShortcut(s, denylist) {
      if forall args: seq<U64> :: |args| == MAX_SYSCALL_ARGUMENTS ==>
               StatementAction(s, denylist, args) == FirstMatch(s.filters, s.last, args) {
        forall i: nat | Reachable(s.filters, i)
          ensures s.filters[i].action == Allow
        {
          var args: seq<U64> :| FirstAt(s.filters, i, args);
          FirstMatchAt(s.filters, s.last, args, i);
          assert StatementAction(s, denylist, args) == FirstMatch(s.filters, s.last, args);
        }
      }
      if forall i: nat :: Reachable(s.filters, i) ==> s.filters[i].action == Allow {
        forall args: seq<U64> | |args| == MAX_SYSCALL_ARGUMENTS
          ensures StatementAction(s, denylist, args) == FirstMatch(s.filters, s.last, args)
        {
          var i := FirstMatchCases(s.filters, s.last, args);
          if i < |s.filters| {
            assert Reachable(s.filters, i);
            FirstMatchAt(s.filters, s.last, args, i);
          }
        }
      }
    }
  }

  /** What a caller can see: no early return, or nothing but allowing filters, and the statement is faithful. */
  lemma {:induction false} AllowingIsFaithful(s: Statement, denylist: bool, args: seq<U64>)
    requires !TakesShortcut(s, denylist) || forall i :: 0 <= i < |s.filters| ==> s.filters[i].action == Allow
    requires |args| == MAX_SYSCALL_ARGUMENTS
    ensures StatementAction(s, denylist, args) == FirstMatch(s.filters, s.last, args)
  {
    var i := FirstMatchCases(s.filters, s.last, args);
    if TakesShortcut(s, denylist) && i < |s.filters| {
      FirstMatchAt(s.filters, s.last, args, i);
    }
  }

  /** An atom that some argument satisfies: only `< 0`, `> 2^64 - 1` and `& 0` hold of none. */
  predicate Satisfiable(atom: AtomExpr) {
    match atom.op
    case Lt => atom.value != 0
    case Gt => atom.value != TWO64 - 1
    case Set => atom.value != 0
    case _ => true
  }

  /** An argument that satisfies an atom. */
  function Witness(atom: AtomExpr): (v: U64)
    requires Satisfiable(atom)
  {
    match atom.op
    case Ne => if atom.value == 0 then 1 else 0
    case Lt => 0
    case Gt => TWO64 - 1
    case Set => atom.value
    case In => 0
    case _ => atom.value
  }

  lemma {:induction false} AndSelf(v: nat)
    ensures And(v, v) == v && And(0, v) == 0
  {
    if v != 0 {
      AndSelf(v / 2);
    }
  }

  lemma SatisfiableIff(atom: AtomExpr)
    ensures Satisfiable(atom) <==> exists v: U64 :: Holds(atom.op, v, atom.value)
    ensures Satisfiable(atom) ==> Holds(atom.op, Witness(atom), atom.value)
  {
    AndSelf(atom.value);
    if !Satisfiable(atom) {
      forall v: U64
        ensures !Holds(atom.op, v, atom.value)
      {
      }
    } else {
      assert Holds(atom.op, Witness(atom), atom.value);
    }
  }

  /** A clause of satisfiable atoms on different arguments. */
  ghost predicate Independent(atoms: seq<AtomExpr>) {
    && (forall i :: 0 <= i < |atoms| ==> Satisfiable(atoms[i]) && atoms[i].arg < MAX_SYSCALL_ARGUMENTS)
    && (forall i, j :: 0 <= i < j < |atoms| ==> atoms[i].arg != atoms[j].arg)
  }

  /** Arguments that satisfy an independent clause. */
  lemma {:induction false} ClauseWitness(atoms: seq<AtomExpr>) returns (args: seq<U64>)
    requires Independent(atoms)
    ensures |args| == MAX_SYSCALL_ARGUMENTS && ClauseHolds(atoms, args)
  {
    if atoms == [] {
      args := seq(MAX_SYSCALL_ARGUMENTS, i => 0);
    } else {
      var n := |atoms| - 1;
      var before := ClauseWitness(atoms[..n]);
      SatisfiableIff(atoms[n]);
      args := before[atoms[n].arg := Witness(atoms[n])];
      forall i | 0 <= i < |atoms|
        ensures AtomHolds(atoms[i], args)
      {
        if i < n {
          assert atoms[..n][i] == atoms[i];
          assert AtomHolds(atoms[..n][i], before);
        }
      }
    }
  }

  /** The other side a caller can see: the early return is taken, and the first filter does something else than allow on
      a clause of satisfiable atoms on different arguments.  Then the statement is not faithful. */
  lemma DroppedIsUnfaithful(s: Statement, denylist: bool, c: nat) returns (args: seq<U64>)
    requires TakesShortcut(s, denylist) && s.filters != [] && s.filters[0].action != Allow
    requires c < |s.filters[0].expression| && Independent(s.filters[0].expression[c])
    ensures |args| == MAX_SYSCALL_ARGUMENTS && StatementAction(s, denylist, args) != FirstMatch(s.filters, s.last, args)
  {
    args := ClauseWitness(s.filters[0].expression[c]);
    assert DnfHolds(s.filters[0].expression, args);
  }

  /** Exactly when, for the usual statement with one condition: the guard of the early return and the filter's action. */
  lemma OneConditionFaithfulIff(s: Statement, denylist: bool)
    requires |s.filters| == 1 && s.filters[0].expression != [] && Independent(s.filters[0].expression[0])
    ensures (forall args: seq<U64> :: |args| == MAX_SYSCALL_ARGUMENTS ==>
               StatementAction(s, denylist, args) == FirstMatch(s.filters, s.last, args))
            <==> denylist || s.last != Allow || s.filters[0].action == Allow
  {
    if denylist || s.last != Allow || s.filters[0].action == Allow {
      forall args: seq<U64> | |args| == MAX_SYSCALL_ARGUMENTS
        ensures StatementAction(s, denylist, args) == FirstMatch(s.filters, s.last, args)
      {
        AllowingIsFaithful(s, denylist, args);
      }
    } else {
      var args := DroppedIsUnfaithful(s, denylist, 0);
    }
  }

  /** `{ arg0 == 1; return 5, allow }` is compiled to an unconditional allow. */
  lemma ShortcutDropsFilter()
    ensures var s := Statement(0, 1, [Filter([[AtomExpr(0, Eq, 1)]], Errno(5))], Allow);
            var args: seq<U64> := [1, 0, 0, 0, 0, 0, 0];
            FirstMatch(s.filters, s.last, args) == Errno(5) && StatementAction(s, false, args) == Allow
  {
    var args: seq<U64> := [1, 0, 0, 0, 0, 0, 0];
    var dnf: Dnf := [[AtomExpr(0, Eq, 1)]];
    assert ClauseHolds(dnf[0], args);
    assert DnfHolds(dnf, args);
  }
}
