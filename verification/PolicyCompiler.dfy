/** PolicyCompiler.compile_file of tools/compiler.py, from parsed statements to the
    final program, and its correctness for every policy and every syscall. */
module PolicyCompiler {
  import opened Bits
  import opened Machine
  import opened Blocks
  import opened Filters
  import opened Flatten
  import opened Lowering
  import opened FilterStatement
  import opened Ranges
  import opened RangeTests
  import opened Bst

  datatype Strategy = Linear | Bst

  datatype Policy = Policy(statements: seq<Statement>, default: Action, kill: Action, denylist: bool)

  ghost predicate PolicyOk(p: Policy, bits: nat) {
    && (forall i :: 0 <= i < |p.statements| ==> FiltersOk(p.statements[i].filters, bits))
    && (forall i, j :: 0 <= i < j < |p.statements| ==> p.statements[i].number != p.statements[j].number)
  }

  /** No filter of the policy looks at argument `args` or beyond. */
  ghost predicate PolicyInRange(p: Policy, args: nat) {
    forall i :: 0 <= i < |p.statements| ==> FiltersInRange(p.statements[i].filters, args)
  }

  /** What the parser guarantees covers the seven arguments of `simulate`. */
  lemma PolicyOkInRange(p: Policy, bits: nat)
    requires PolicyOk(p, bits)
    ensures PolicyInRange(p, MAX_SYSCALL_ARGUMENTS)
  {
    forall i | 0 <= i < |p.statements|
      ensures FiltersInRange(p.statements[i].filters, MAX_SYSCALL_ARGUMENTS)
    {
      assert FiltersOk(p.statements[i].filters, bits);
    }
  }

  function AcceptAction(p: Policy): Action { if p.denylist then p.kill else Allow }

  function RejectAction(p: Policy): Action { if p.denylist then Allow else p.default }

  /** The action of the statement that names syscall `nr`. */
  function Listed(statements: seq<Statement>, denylist: bool, reject: Action, nr: U32, args: seq<U64>): Action {
    if statements == [] then reject
    else if statements[0].number == nr then StatementAction(statements[0], denylist, args)
    else Listed(statements[1..], denylist, reject, nr, args)
  }

  /** What a policy says about a syscall. */
  function Decision(p: Policy, archNr: U32, d: SyscallData): Action {
    if d.arch != archNr then p.kill
    else Listed(p.statements, p.denylist, RejectAction(p), d.nr, d.args)
  }

  lemma {:induction false} ListedAt(statements: seq<Statement>, denylist: bool, reject: Action, nr: U32,
                                    args: seq<U64>, i: nat)
    requires i < |statements| && statements[i].number == nr
    requires forall j, k :: 0 <= j < k < |statements| ==> statements[j].number != statements[k].number
    ensures Listed(statements, denylist, reject, nr, args) == StatementAction(statements[i], denylist, args)
  {
    if i > 0 {
      ListedAt(statements[1..], denylist, reject, nr, args, i - 1);
    }
  }

  lemma {:induction false} ListedNowhere(statements: seq<Statement>, denylist: bool, reject: Action, nr: U32,
                                         args: seq<U64>)
    requires forall i :: 0 <= i < |statements| ==> statements[i].number != nr
    ensures Listed(statements, denylist, reject, nr, args) == reject
  {
    if statements != [] {
      ListedNowhere(statements[1..], denylist, reject, nr, args);
    }
  }

  // ----- Entries -----

  ghost predicate EntryOk(arena: Arena, e: Entry, s: Statement, denylist: bool, bits: nat) {
    && e.number == s.number && e.frequency == s.frequency
    && (e.filter.None? <==> TakesShortcut(s, denylist))
    && (e.filter.Some? ==> e.filter.value < |arena| && FiltersBlock(arena[e.filter.value], s.filters, s.last, bits))
  }

  ghost predicate EntriesOk(arena: Arena, entries: seq<Entry>, statements: seq<Statement>, denylist: bool, bits: nat) {
    && |entries| == |statements|
    && forall i :: 0 <= i < |entries| ==> EntryOk(arena, entries[i], statements[i], denylist, bits)
  }

  lemma EntriesExtended(arena: Arena, bigger: Arena, entries: seq<Entry>, statements: seq<Statement>, denylist: bool,
                        bits: nat)
    requires EntriesOk(arena, entries, statements, denylist, bits) && arena <= bigger
    ensures EntriesOk(bigger, entries, statements, denylist, bits)
  {
    forall i | 0 <= i < |entries|
      ensures EntryOk(bigger, entries[i], statements[i], denylist, bits)
    {
      assert EntryOk(arena, entries[i], statements[i], denylist, bits);
    }
  }

  method CompileEntries(p: Policy, bits: nat) returns (arena: Arena, entries: seq<Entry>)
    requires PolicyOk(p, bits)
    ensures WellFormed(arena) && EntriesOk(arena, entries, p.statements, p.denylist, bits)
  {
    hide FiltersOk, FiltersBlock;
    arena, entries := [], [];
    for k := 0 to |p.statements|
      invariant WellFormed(arena) && EntriesOk(arena, entries, p.statements[..k], p.denylist, bits)
    {
      var s := p.statements[k];
      var bigger, filter := CompileFilterStatement(arena, s, p.denylist, bits);
      EntriesExtended(arena, bigger, entries, p.statements[..k], p.denylist, bits);
      arena := bigger;
      entries := entries + [Entry(s.number, s.frequency, filter)];
    }
    assert p.statements[..|p.statements|] == p.statements;
  }

  // ----- The decision tree -----

  /** Block `id` leads every syscall number to the block of its entry, to `accept`, or to `reject`. */
  ghost predicate DecidesRanges(arena: Arena, id: BlockId, rs: seq<Range>, accept: BlockId, reject: BlockId) {
    && WellFormed(arena) && id < |arena| && Lowered(arena, id) && arena[id].SyscallEntry?
    && forall x: nat :: x < TWO32 ==> Picks(arena, id, rs, x, accept, reject)
  }

  method CompileTree(arena: Arena, rs: seq<Range>, strategy: Strategy, accept: BlockId, reject: BlockId)
    returns (bigger: Arena, id: BlockId)
    requires Ordered(rs) && rs != [] && TargetsOk(arena, rs, accept, reject)
    requires forall r :: r in rs ==> r.hi <= TWO32
    ensures arena <= bigger && DecidesRanges(bigger, id, rs, accept, reject)
  {
    ghost var pick := (r: Range) => r.lo;
    var cost;
    if strategy.Bst? {
      cost, bigger, id := CompileBst(arena, rs, accept, reject, pick);
    } else {
      OrderedDisjoint(rs, 0, |rs|);
      assert rs[0..|rs|] == rs;
      cost, bigger, id := CompileRangesLinear(arena, rs, accept, reject, pick);
    }
  }

  /** Every range has the filter of one of the entries. */
  lemma RangeFilter(arena: Arena, entries: seq<Entry>, statements: seq<Statement>, denylist: bool, bits: nat, r: Range)
    requires EntriesOk(arena, entries, statements, denylist, bits) && SomeFilterOf(r, entries)
    ensures r.filter.Some? ==> r.filter.value < |arena| && arena[r.filter.value].BasicBlock?
  {
    var e :| e in entries && e.filter == r.filter;
    var i :| 0 <= i < |entries| && entries[i] == e;
    EntryFilter(arena, e, statements[i], denylist, bits);
  }

  lemma EntryFilter(arena: Arena, e: Entry, s: Statement, denylist: bool, bits: nat)
    requires EntryOk(arena, e, s, denylist, bits)
    ensures e.filter.Some? ==> e.filter.value < |arena| && arena[e.filter.value].BasicBlock?
  {
  }

  /** The ranges of the entries can be used as decision targets. */
  lemma RangeTargets(arena: Arena, entries: seq<Entry>, statements: seq<Statement>, denylist: bool, bits: nat,
                     rs: seq<Range>, accept: BlockId, reject: BlockId)
    requires WellFormed(arena) && EntriesOk(arena, entries, statements, denylist, bits) && RangesOf(arena, rs, entries)
    requires Leaf(arena, accept) && Leaf(arena, reject)
    ensures TargetsOk(arena, rs, accept, reject)
  {
    hide WellFormed, EntryOk, Covers, Maximal, SomeFilterOf;
    forall r | r in rs
      ensures r.lo < r.hi && FilterOk(arena, r.filter)
    {
      RangeFilter(arena, entries, statements, denylist, bits, r);
    }
  }

  /** The range that stands for an entry has a filter exactly when the entry does, with the same code. */
  lemma RangeOfEntry(arena: Arena, entries: seq<Entry>, statements: seq<Statement>, denylist: bool, bits: nat,
                     rs: seq<Range>, i: nat) returns (r: Range)
    requires EntriesOk(arena, entries, statements, denylist, bits) && RangesOf(arena, rs, entries) && i < |entries|
    ensures r in rs && Within(entries[i].number, r)
    ensures r.filter.Some? == entries[i].filter.Some?
    ensures r.filter.Some? ==> r.filter.value < |arena| && arena[r.filter.value].BasicBlock?
    ensures entries[i].filter.Some? ==> entries[i].filter.value < |arena| && arena[entries[i].filter.value].BasicBlock?
    ensures r.filter.Some? ==> arena[r.filter.value].code == arena[entries[i].filter.value].code
  {
    hide EntryOk, Ordered, Maximal, SomeFilterOf;
    var e := entries[i];
    assert e in entries && Represented(arena, rs, e);
    r :| r in rs && Represents(arena, r, e);
    EntryFilter(arena, e, statements[i], denylist, bits);
    RangeFilter(arena, entries, statements, denylist, bits, r);
  }

  /** Where the decision tree ends for a number that has an entry. */
  lemma {:induction false} ListedVerdict(arena: Arena, id: BlockId, p: Policy, entries: seq<Entry>, rs: seq<Range>,
                                         bits: nat,
                      accept: BlockId, reject: BlockId, d: SyscallData, i: nat)
    requires EntriesOk(arena, entries, p.statements, p.denylist, bits)
    requires RangesOf(arena, rs, entries) && DecidesRanges(arena, id, rs, accept, reject)
    requires accept < |arena| && arena[accept] == ActionBlock(AcceptAction(p))
    requires InScope(d, bits) && PolicyInRange(p, |d.args|) && i < |entries| && entries[i].number == d.nr
    ensures Denote(arena, id, Pack(d), d.nr) ==
              Returned(RetValue(StatementAction(p.statements[i], p.denylist, d.args)))
  {
    var e, s := entries[i], p.statements[i];
    var r := RangeOfEntry(arena, entries, p.statements, p.denylist, bits, rs, i);
    var target := Target(r.filter, accept);
    assert Resolve(arena, id, d.nr) == target by {
      assert Picks(arena, id, rs, d.nr, accept, reject);
    }
    ResolveDenotes(arena, id, Pack(d), d.nr);
    EntryVerdict(arena, e, s, p, bits, accept, target, d);
  }

  /** The target of an entry answers with the action of its statement. */
  lemma {:induction false} EntryVerdict(arena: Arena, e: Entry, s: Statement, p: Policy, bits: nat, accept: BlockId,
                                        target: BlockId, d: SyscallData)
    requires WellFormed(arena) && EntryOk(arena, e, s, p.denylist, bits) && InScope(d, bits) && FiltersInRange(s.filters, |d.args|)
    requires accept < |arena| && arena[accept] == ActionBlock(AcceptAction(p))
    requires target < |arena|
    requires e.filter.None? ==> target == accept
    requires e.filter.Some? ==> arena[target].BasicBlock? && arena[target].code == arena[e.filter.value].code
    ensures Denote(arena, target, Pack(d), d.nr) == Returned(RetValue(StatementAction(s, p.denylist, d.args)))
  {
    if e.filter.Some? {
      var b := arena[e.filter.value];
      assert FiltersBlock(b, s.filters, s.last, bits);
      assert Run(b.code, Pack(d), d.nr) == Returned(RetValue(FirstMatch(s.filters, s.last, d.args)));
    }
  }

  lemma {:induction false} UnlistedVerdict(arena: Arena, id: BlockId, p: Policy, entries: seq<Entry>, rs: seq<Range>,
                        accept: BlockId, reject: BlockId, d: SyscallData)
    requires RangesOf(arena, rs, entries) && DecidesRanges(arena, id, rs, accept, reject)
    requires reject < |arena| && arena[reject] == ActionBlock(RejectAction(p))
    requires forall i :: 0 <= i < |entries| ==> entries[i].number != d.nr
    ensures Denote(arena, id, Pack(d), d.nr) == Returned(RetValue(RejectAction(p)))
  {
    assert !Named(d.nr, entries);
    assert Picks(arena, id, rs, d.nr, accept, reject);
    ResolveDenotes(arena, id, Pack(d), d.nr);
  }

  lemma {:induction false} TreeVerdict(arena: Arena, id: BlockId, p: Policy, entries: seq<Entry>, rs: seq<Range>,
                                       bits: nat,
                    accept: BlockId, reject: BlockId, d: SyscallData)
    requires PolicyOk(p, bits) && EntriesOk(arena, entries, p.statements, p.denylist, bits)
    requires RangesOf(arena, rs, entries) && DecidesRanges(arena, id, rs, accept, reject)
    requires accept < |arena| && arena[accept] == ActionBlock(AcceptAction(p))
    requires reject < |arena| && arena[reject] == ActionBlock(RejectAction(p))
    requires InScope(d, bits) && PolicyInRange(p, |d.args|)
    ensures Denote(arena, id, Pack(d), d.nr) ==
              Returned(RetValue(Listed(p.statements, p.denylist, RejectAction(p), d.nr, d.args)))
  {
    if i :| 0 <= i < |entries| && entries[i].number == d.nr {
      assert EntryOk(arena, entries[i], p.statements[i], p.denylist, bits);
      ListedVerdict(arena, id, p, entries, rs, bits, accept, reject, d, i);
      ListedAt(p.statements, p.denylist, RejectAction(p), d.nr, d.args, i);
    } else {
      UnlistedVerdict(arena, id, p, entries, rs, accept, reject, d);
      forall i | 0 <= i < |p.statements|
        ensures p.statements[i].number != d.nr
      {
        assert EntryOk(arena, entries[i], p.statements[i], p.denylist, bits);
      }
      ListedNowhere(p.statements, p.denylist, RejectAction(p), d.nr, d.args);
    }
  }

  // ----- Emission -----

  /** Only leaves have been emitted so far. */
  ghost predicate OnlyLeaves(arena: Arena, visitor: FlatteningVisitor)
    reads visitor
  {
    && visitor.Valid(arena) && visitor.Pending() == {}
    && forall id :: id in visitor.visited ==> Leaf(arena, id)
  }

  method AcceptLeaf(arena: Arena, id: BlockId, visitor: FlatteningVisitor)
    requires OnlyLeaves(arena, visitor) && Leaf(arena, id)
    modifies visitor
    ensures OnlyLeaves(arena, visitor) && visitor.offsets.Keys == old(visitor.offsets.Keys) + {id}
    ensures old(visitor.visited) == {} ==> visitor.Distance(arena, id) == 0
  {
    ghost var before := visitor.visited;
    if id in visitor.visited {
      assert id !in visitor.Pending();
    } else {
      visitor.visited := visitor.visited + {id};
      visitor.Visit(arena, id);
    }
    assert visitor.Pending() == {};
  }

  /** Block `to` is met on some path from block `from`. */
  ghost predicate Meets(arena: Arena, from: BlockId, to: BlockId)
    requires WellFormed(arena) && from < |arena|
    decreases from
  {
    to == from || (IsBranch(arena[from]) && (Meets(arena, arena[from].jt, to) || Meets(arena, arena[from].jf, to)))
  }

  /** Every arg filter met from `id` has been emitted. */
  ghost predicate Forwarded(arena: Arena, id: BlockId, emitted: set<BlockId>)
    requires WellFormed(arena)
  {
    id < |arena| && forall to: nat :: Meets(arena, id, to) && to < |arena| && arena[to].BasicBlock? ==> to in emitted
  }

  lemma ForwardedMore(arena: Arena, id: BlockId, emitted: set<BlockId>, more: set<BlockId>)
    requires WellFormed(arena) && Forwarded(arena, id, emitted) && emitted <= more
    ensures Forwarded(arena, id, more)
  {
  }

  lemma ForwardedBranch(arena: Arena, id: BlockId, emitted: set<BlockId>)
    requires WellFormed(arena) && id < |arena| && IsBranch(arena[id])
    requires Forwarded(arena, arena[id].jt, emitted) && Forwarded(arena, arena[id].jf, emitted)
    ensures Forwarded(arena, id, emitted)
  {
  }

  /** What was emitted beyond `before` are arg filters met from `id`. */
  ghost predicate OnlyFrom(arena: Arena, id: BlockId, before: set<BlockId>, after: set<BlockId>)
    requires WellFormed(arena) && id < |arena|
  {
    before <= after && forall to: nat :: to in after && to !in before ==> to < |arena| && arena[to].BasicBlock? && Meets(arena, id, to)
  }

  lemma OnlyFromBranch(arena: Arena, id: BlockId, a: set<BlockId>, b: set<BlockId>, c: set<BlockId>)
    requires WellFormed(arena) && id < |arena| && IsBranch(arena[id])
    requires OnlyFrom(arena, arena[id].jt, a, b) && OnlyFrom(arena, arena[id].jf, b, c)
    ensures OnlyFrom(arena, id, a, c)
  {
  }

  /** ArgFilterForwardingVisitor of tools/bpf.py: sends the arg filters of a tree, and nothing else, to the
      flattening visitor. */
  class ArgFilterForwardingVisitor {
    const visitor: FlatteningVisitor
    var visited: set<BlockId>
    /** Blocks whose visit has ended. */
    ghost var finished: set<BlockId>

    constructor (visitor: FlatteningVisitor)
      ensures this.visitor == visitor && visited == {} && finished == {}
    {
      this.visitor := visitor;
      visited, finished := {}, {};
    }

    ghost predicate Valid(arena: Arena)
      reads this, visitor
    {
      && OnlyLeaves(arena, visitor) && finished <= visited
      && forall id :: id in finished ==> Forwarded(arena, id, visitor.offsets.Keys)
    }

    /** Emits all arg filters met from `id`, and no other block. */
    method Accept(arena: Arena, id: BlockId)
      requires Valid(arena) && id < |arena|
      requires forall p :: p in visited - finished ==> id < p
      modifies this, visitor
      ensures Valid(arena) && visited - finished == old(visited - finished)
      ensures id in finished && Forwarded(arena, id, visitor.offsets.Keys)
      ensures OnlyFrom(arena, id, old(visitor.offsets.Keys), visitor.offsets.Keys)
      decreases id
    {
      hide Forwarded, OnlyFrom, Meets;
      ghost var emitted := visitor.offsets.Keys;
      if id in visited {
        assert id !in visited - finished;
        NothingNew(arena, id, emitted);
        return;
      }
      visited := visited + {id};
      assert visited - finished == old(visited - finished) + {id};
      var b := arena[id];
      assert BlockOk(b, id);
      if IsBranch(b) {
        Accept(arena, b.jt);
        ghost var half := visitor.offsets.Keys;
        Accept(arena, b.jf);
        assert half <= visitor.offsets.Keys by { OnlyFromGrows(arena, b.jf, half, visitor.offsets.Keys); }
        ForwardedMore(arena, b.jt, half, visitor.offsets.Keys);
        ForwardedBranch(arena, id, visitor.offsets.Keys);
        OnlyFromBranch(arena, id, emitted, half, visitor.offsets.Keys);
      } else {
        if b.BasicBlock? {
          AcceptLeaf(arena, id, visitor);
        }
        LeafForwarded(arena, id, emitted, visitor.offsets.Keys);
      }
      forall v | v in finished
        ensures Forwarded(arena, v, visitor.offsets.Keys)
      {
        if v in old(finished) {
          OnlyFromGrows(arena, id, emitted, visitor.offsets.Keys);
          ForwardedMore(arena, v, emitted, visitor.offsets.Keys);
        }
      }
      finished := finished + {id};
    }
  }

  lemma NothingNew(arena: Arena, id: BlockId, emitted: set<BlockId>)
    requires WellFormed(arena) && id < |arena|
    ensures OnlyFrom(arena, id, emitted, emitted)
  {
  }

  lemma OnlyFromGrows(arena: Arena, id: BlockId, before: set<BlockId>, after: set<BlockId>)
    requires WellFormed(arena) && id < |arena| && OnlyFrom(arena, id, before, after)
    ensures before <= after
  {
  }

  lemma LeafForwarded(arena: Arena, id: BlockId, before: set<BlockId>, after: set<BlockId>)
    requires WellFormed(arena) && Leaf(arena, id)
    requires after == if arena[id].BasicBlock? then before + {id} else before
    ensures Forwarded(arena, id, after) && OnlyFrom(arena, id, before, after)
  {
  }

  /** `code` answers every syscall in scope with the verdict of the policy, whether it is shown the seven arguments of
      `simulate` or the six of the kernel, as long as no filter asks for more. */
  ghost predicate Implements(code: Program, p: Policy, archNr: U32, bits: nat) {
    && Checked(code, PACKED_SIZE)
    && forall d: SyscallData, a: nat {:trigger Run(code, Pack(d), a)} :: InScope(d, bits) && PolicyInRange(p, |d.args|) ==>
         Run(code, Pack(d), a) == Returned(RetValue(Decision(p, archNr, d)))
  }

  lemma ImplementsBy(code: Program, p: Policy, archNr: U32, bits: nat, arena: Arena, next: BlockId)
    requires WellFormed(arena) && next < |arena| && Checked(code, PACKED_SIZE)
    requires forall mem: seq<Byte>, a: nat {:trigger Run(code, mem, a)} :: |mem| >= HEADER_SIZE ==>
               Run(code, mem, a) == if Load(mem, 4).value == archNr then Denote(arena, next, mem, Load(mem, 0).value)
                                    else Returned(RetValue(p.kill))
    requires forall d: SyscallData {:trigger Pack(d)} :: InScope(d, bits) && PolicyInRange(p, |d.args|) ==>
               Denote(arena, next, Pack(d), d.nr) ==
               Returned(RetValue(Listed(p.statements, p.denylist, RejectAction(p), d.nr, d.args)))
    ensures Implements(code, p, archNr, bits)
  {
    forall d: SyscallData, a: nat {:trigger Run(code, Pack(d), a)} | InScope(d, bits) && PolicyInRange(p, |d.args|)
      ensures Run(code, Pack(d), a) == Returned(RetValue(Decision(p, archNr, d)))
    {
      LoadsNumbers(d);
    }
  }

  /** compile_file: for either strategy, allowlist or denylist, the program is accepted by the static checks and
      kills on a foreign architecture, answers a listed syscall with its statement's action, and any other with
      the default. */
  method CompileFile(p: Policy, strategy: Strategy, archNr: U32, bits: nat) returns (code: Program)
    requires PolicyOk(p, bits)
    ensures Implements(code, p, archNr, bits)
  {
    var arena, entries := CompileEntries(p, bits);
    var accept, reject := |arena|, |arena| + 1;
    ghost var before := arena;
    WellFormedAppend(arena, ActionBlock(AcceptAction(p)));
    WellFormedAppend(arena + [ActionBlock(AcceptAction(p))], ActionBlock(RejectAction(p)));
    arena := arena + [ActionBlock(AcceptAction(p))] + [ActionBlock(RejectAction(p))];
    assert arena[accept] == ActionBlock(AcceptAction(p)) && arena[reject] == ActionBlock(RejectAction(p));
    EntriesExtended(before, arena, entries, p.statements, p.denylist, bits);
    if entries == [] {
      code := EmitDefault(arena, reject, p, archNr, bits);
    } else {
      code := EmitTree(arena, entries, accept, reject, p, strategy, archNr, bits);
    }
  }

  method EmitDefault(arena: Arena, reject: BlockId, p: Policy, archNr: U32, bits: nat) returns (code: Program)
    requires WellFormed(arena) && reject < |arena| && arena[reject] == ActionBlock(RejectAction(p))
    requires p.statements == []
    ensures Implements(code, p, archNr, bits)
  {
    var visitor := new FlatteningVisitor(archNr, p.kill);
    AcceptLeaf(arena, reject, visitor);
    visitor.AcceptValidateArch(arena, reject);
    code := visitor.instructions;
    ImplementsBy(code, p, archNr, bits, arena, reject);
  }

  method EmitTree(arena: Arena, entries: seq<Entry>, accept: BlockId, reject: BlockId, p: Policy, strategy: Strategy,
                  archNr: U32, bits: nat) returns (code: Program)
    requires PolicyOk(p, bits) && WellFormed(arena) && entries != []
    requires EntriesOk(arena, entries, p.statements, p.denylist, bits)
    requires accept < |arena| && arena[accept] == ActionBlock(AcceptAction(p))
    requires reject < |arena| && arena[reject] == ActionBlock(RejectAction(p))
    ensures Implements(code, p, archNr, bits)
  {
    assert Distinct(entries) by {
      forall i, j | 0 <= i < j < |entries|
        ensures entries[i].number != entries[j].number
      {
        assert EntryOk(arena, entries[i], p.statements[i], p.denylist, bits);
        assert EntryOk(arena, entries[j], p.statements[j], p.denylist, bits);
      }
    }
    var ranges := ConvertToRanges(arena, entries);
    RangeTargets(arena, entries, p.statements, p.denylist, bits, ranges, accept, reject);
    var tree, next := CompileTree(arena, ranges, strategy, accept, reject);
    EntriesExtended(arena, tree, entries, p.statements, p.denylist, bits);
    RangesExtended(arena, tree, ranges, entries, p.statements, p.denylist, bits);
    code := EmitBlocks(tree, next, accept, reject, archNr, p.kill);
    forall d: SyscallData {:trigger Pack(d)} | InScope(d, bits) && PolicyInRange(p, |d.args|)
      ensures Denote(tree, next, Pack(d), d.nr) ==
              Returned(RetValue(Listed(p.statements, p.denylist, RejectAction(p), d.nr, d.args)))
    {
      TreeVerdict(tree, next, p, entries, ranges, bits, accept, reject, d);
    }
    ImplementsBy(code, p, archNr, bits, tree, next);
  }

  lemma RangesExtended(arena: Arena, bigger: Arena, rs: seq<Range>, entries: seq<Entry>, statements: seq<Statement>,
                       denylist: bool, bits: nat)
    requires EntriesOk(arena, entries, statements, denylist, bits) && RangesOf(arena, rs, entries) && arena <= bigger
    ensures RangesOf(bigger, rs, entries)
  {
    hide EntryOk, SomeFilterOf;
    forall e | e in entries
      ensures FilterCode(bigger, e.filter) == FilterCode(arena, e.filter)
    {
      var i :| 0 <= i < |entries| && entries[i] == e;
      EntryFilter(arena, e, statements[i], denylist, bits);
    }
    forall r | r in rs
      ensures FilterCode(bigger, r.filter) == FilterCode(arena, r.filter)
    {
      RangeFilter(arena, entries, statements, denylist, bits, r);
    }
    RangesTransfer(arena, bigger, rs, entries);
  }

  lemma RangesTransfer(arena: Arena, bigger: Arena, rs: seq<Range>, entries: seq<Entry>)
    requires RangesOf(arena, rs, entries)
    requires forall e :: e in entries ==> FilterCode(bigger, e.filter) == FilterCode(arena, e.filter)
    requires forall r :: r in rs ==> FilterCode(bigger, r.filter) == FilterCode(arena, r.filter)
    ensures RangesOf(bigger, rs, entries)
  {
    hide FilterCode, SomeFilterOf, Named;
    forall e | e in entries
      ensures Represented(bigger, rs, e)
    {
      assert Represented(arena, rs, e);
      var r :| r in rs && Represents(arena, r, e);
      assert Represents(bigger, r, e);
    }
  }

  /** Arg filters first, then the two actions, then the tree behind the architecture check. */
  method EmitBlocks(arena: Arena, next: BlockId, accept: BlockId, reject: BlockId, archNr: U32,
                    kill: Action) returns (code: Program)
    requires WellFormed(arena) && next < |arena| && Lowered(arena, next) && arena[next].SyscallEntry?
    requires Leaf(arena, accept) && Leaf(arena, reject)
    ensures Checked(code, PACKED_SIZE)
    ensures forall mem: seq<Byte>, a: nat {:trigger Run(code, mem, a)} :: |mem| >= HEADER_SIZE ==>
              Run(code, mem, a) == if Load(mem, 4).value == archNr then Denote(arena, next, mem, Load(mem, 0).value)
                                   else Returned(RetValue(kill))
  {
    var visitor := new FlatteningVisitor(archNr, kill);
    var forwarder := new ArgFilterForwardingVisitor(visitor);
    forwarder.Accept(arena, next);
    AcceptLeaf(arena, reject, visitor);
    AcceptLeaf(arena, accept, visitor);
    visitor.AcceptValidateArch(arena, next);
    code := visitor.instructions;
  }

  /** Simulating a compiled program never raises, ends within as many steps as there are
      instructions and reports the policy's decision, an errno cut to 16 bits. */
  lemma SimulationVerdict(code: Program, p: Policy, archNr: U32, bits: nat, d: SyscallData)
    requires Implements(code, p, archNr, bits) && InScope(d, bits) && PolicyInRange(p, |d.args|)
    ensures Verdicts(code, Pack(d)).Verdict? && Verdicts(code, Pack(d)).cost <= |code|
    ensures Verdicts(code, Pack(d)).action == Canonical(Decision(p, archNr, d))
  {
    hide Steps, Pack, Decision;
    var out := Run(code, Pack(d), 0);
    DecodeRetValue(Decision(p, archNr, d));
  }

  /** The two optimisation strategies give programs that agree on every syscall. */
  lemma {:induction false} StrategiesAgree(linear: Program, bst: Program, p: Policy, archNr: U32, bits: nat,
                                           d: SyscallData)
    requires Implements(linear, p, archNr, bits) && Implements(bst, p, archNr, bits)
    requires InScope(d, bits) && PolicyInRange(p, |d.args|)
    ensures Run(linear, Pack(d), 0) == Run(bst, Pack(d), 0)
  {
  }

  // ----- What a compiled program answers, case by case -----

  /** On a 32-bit architecture the arguments are 32-bit words. */
  ghost predicate InWidth(d: SyscallData, bits: nat) {
    bits == 32 ==> forall i :: 0 <= i < |d.args| ==> d.args[i] < 0x1_0000_0000
  }

  /** The expressions of the filters before `k` fail; the one of filter `k`, if there is one, holds. */
  ghost predicate Decisive(filters: seq<Filter>, k: nat, args: seq<U64>) {
    && k <= |filters|
    && (forall i :: 0 <= i < k ==> !DnfHolds(filters[i].expression, args))
    && (k < |filters| ==> DnfHolds(filters[k].expression, args))
  }

  lemma {:induction false} DecisiveMatch(filters: seq<Filter>, last: Action, args: seq<U64>, k: nat)
    requires Decisive(filters, k, args)
    ensures FirstMatch(filters, last, args) == if k < |filters| then filters[k].action else last
  {
    if k > 0 {
      var rest := filters[1..];
      assert forall i :: 0 <= i < |rest| ==> rest[i] == filters[i + 1];
      DecisiveMatch(rest, last, args, k - 1);
    }
  }

  /** What is asked of a policy: its conditions look at the seven arguments, compare 32-bit constants on a 32-bit
      architecture, and no syscall has two statements. */
  lemma PolicyOkIs(p: Policy, bits: nat)
    ensures PolicyOk(p, bits) <==>
            && (forall i, f, g, a | 0 <= i < |p.statements| && 0 <= f < |p.statements[i].filters|
                                    && 0 <= g < |p.statements[i].filters[f].expression|
                                    && 0 <= a < |p.statements[i].filters[f].expression[g]| ::
                  var atom := p.statements[i].filters[f].expression[g][a];
                  atom.arg < 7 && (bits == 32 ==> atom.value < 0x1_0000_0000))
            && (forall i, j :: 0 <= i < j < |p.statements| ==> p.statements[i].number != p.statements[j].number)
  {
    if PolicyOk(p, bits) {
      forall i, f, g, a | 0 <= i < |p.statements| && 0 <= f < |p.statements[i].filters|
                          && 0 <= g < |p.statements[i].filters[f].expression|
                          && 0 <= a < |p.statements[i].filters[f].expression[g]|
        ensures var atom := p.statements[i].filters[f].expression[g][a];
                atom.arg < 7 && (bits == 32 ==> atom.value < 0x1_0000_0000)
      {
        assert FiltersOk(p.statements[i].filters, bits);
        assert DnfOk(p.statements[i].filters[f].expression, bits);
        assert ClauseOk(p.statements[i].filters[f].expression[g], bits);
        assert AtomOk(p.statements[i].filters[f].expression[g][a], bits);
      }
    }
  }

  lemma PolicyInRangeIs(p: Policy, n: nat)
    ensures PolicyInRange(p, n) <==>
            forall i, f, g, a | 0 <= i < |p.statements| && 0 <= f < |p.statements[i].filters|
                                && 0 <= g < |p.statements[i].filters[f].expression|
                                && 0 <= a < |p.statements[i].filters[f].expression[g]| ::
              p.statements[i].filters[f].expression[g][a].arg < n
  {
    if PolicyInRange(p, n) {
      forall i, f, g, a | 0 <= i < |p.statements| && 0 <= f < |p.statements[i].filters|
                          && 0 <= g < |p.statements[i].filters[f].expression|
                          && 0 <= a < |p.statements[i].filters[f].expression[g]|
        ensures p.statements[i].filters[f].expression[g][a].arg < n
      {
        assert FiltersInRange(p.statements[i].filters, n);
        assert DnfInRange(p.statements[i].filters[f].expression, n);
        assert ClauseInRange(p.statements[i].filters[f].expression[g], n);
      }
    }
  }

  /** On a foreign architecture a compiled program answers with the kill action of the policy. */
  lemma {:induction false} AnswersForeign(code: Program, p: Policy, archNr: U32, bits: nat, d: SyscallData, a: nat)
    requires Implements(code, p, archNr, bits) && InWidth(d, bits) && PolicyInRange(p, |d.args|)
    requires d.arch != archNr
    ensures Run(code, Pack(d), a) == Returned(RetValue(p.kill))
  {
    hide Run, Pack;
  }

  /** A syscall that no statement names is allowed by a denylist and gets the default action of an allowlist. */
  lemma {:induction false} AnswersUnlisted(code: Program, p: Policy, archNr: U32, bits: nat, d: SyscallData, a: nat)
    requires Implements(code, p, archNr, bits) && InWidth(d, bits) && PolicyInRange(p, |d.args|)
    requires d.arch == archNr && forall i :: 0 <= i < |p.statements| ==> p.statements[i].number != d.nr
    ensures Run(code, Pack(d), a) == Returned(if p.denylist then 0x7fff_0000 else RetValue(p.default))
  {
    hide Run, Pack;
    ListedNowhere(p.statements, p.denylist, RejectAction(p), d.nr, d.args);
  }

  /** A syscall that statement `i` names is allowed outright by an allowlist whose statement ends in allow; otherwise
      it gets the action of the first filter `k` of the statement whose expression holds, or the last action. */
  lemma {:induction false} AnswersListed(code: Program, p: Policy, archNr: U32, bits: nat, d: SyscallData, a: nat,
                                         i: nat, k: nat)
    requires Implements(code, p, archNr, bits) && InWidth(d, bits) && PolicyInRange(p, |d.args|) && PolicyOk(p, bits)
    requires d.arch == archNr && i < |p.statements| && p.statements[i].number == d.nr
    requires Decisive(p.statements[i].filters, k, d.args)
    ensures var s := p.statements[i];
            Run(code, Pack(d), a) ==
            Returned(if !p.denylist && s.last == Allow then 0x7fff_0000
                     else if k < |s.filters| then RetValue(s.filters[k].action)
                     else RetValue(s.last))
  {
    hide Run, Pack;
    ListedAt(p.statements, p.denylist, RejectAction(p), d.nr, d.args, i);
    DecisiveMatch(p.statements[i].filters, p.statements[i].last, d.args, k);
  }

  /** Every list of filters has such a first place. */
  lemma {:induction false} DecisivePlace(filters: seq<Filter>, args: seq<U64>) returns (k: nat)
    ensures Decisive(filters, k, args)
  {
    k := 0;
    while k < |filters| && !DnfHolds(filters[k].expression, args)
      invariant k <= |filters|
      invariant forall i :: 0 <= i < k ==> !DnfHolds(filters[i].expression, args)
    {
      k := k + 1;
    }
  }

  /** A compiled program only jumps forward inside itself with offsets that fit a byte, loads inside the seven-argument
      data, uses no scratch memory and ends in a return. */
  lemma CompiledIsBounded(code: Program, p: Policy, archNr: U32, bits: nat, i: nat)
    requires Implements(code, p, archNr, bits) && i < |code|
    ensures code[i].jt < 256 && code[i].jf < 256
    ensures code[i].code.Jmp? ==> i + 1 + code[i].jt < |code| && i + 1 + code[i].jf < |code|
    ensures code[i].code.Ja? ==> i + 1 + code[i].k < |code|
    ensures code[i].code.LdAbs? ==> code[i].k + 4 <= 72
    ensures !code[i].code.LdMem? && !code[i].code.St?
    ensures |code| > 0 && code[|code| - 1].code.Ret?
  {
    assert InstructionOk(code[i], |code| - 1 - i, PACKED_SIZE);
    assert InstructionOk(code[|code| - 1], 0, PACKED_SIZE);
  }
}
