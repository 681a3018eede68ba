/** compile_policy_line of syscall_filter.c: one policy line becomes a linked list of
    instruction blocks. */
module PolicyLine {
  import opened Bits
  import opened Machine
  import opened Filters
  import opened Labels
  import opened Encoding
  import opened Compare
  import opened BlockList
  import opened SyscallFilter
  import opened LabelUse

  type Table = BpfLabels<Name>

  // ----- Encodings of the pieces -----

  lemma ArgCompEncodes(table: seq<Name>, op: Operator, arg: nat, c: U64, target: Name, id: nat)
    requires id < |table| && table[id] == target
    ensures Encodes(table, ArgCompSyms(op, arg, c, target), ArgCompCode(op, arg, c, id))
  {
    var body := LoadArgCode(arg) + CompCode(op, c);
    CompPlain(op, c);
    hide CompCode, LoadArgCode;
    forall i | 0 <= i < |body|
      ensures AsSym(body[i]).Plain?
    {
      if i < |LoadArgCode(arg)| {
        assert body[i] == LoadArgCode(arg)[i];
      } else {
        assert body[i] == CompCode(op, c)[i - |LoadArgCode(arg)|];
      }
      assert body[i] in LoadArgCode(arg) || body[i] in CompCode(op, c);
      LoadPlain(arg);
    }
    assert Encodes(table, Plains(body), body);
    EncodesJoin(table, Plains(body), body, [Jump(target)], [SetJumpLabel(id)]);
  }

  lemma LoadPlain(arg: nat)
    ensures forall ins :: ins in LoadArgCode(arg) ==> AsSym(ins).Plain?
  {
  }

  lemma CompPlain(op: Operator, c: U64)
    ensures forall ins :: ins in CompCode(op, c) ==> AsSym(ins).Plain?
  {
  }

  lemma {:induction false} AtomsSnoc(nr: nat, group: nat, atoms: seq<AtomExpr>, k: nat)
    requires k < |atoms|
    ensures AtomsSyms(nr, group, atoms[..k + 1]) ==
            AtomsSyms(nr, group, atoms[..k]) + ArgCompSyms(atoms[k].op, atoms[k].arg, atoms[k].value, GroupEnd(nr, group))
  {
    hide ArgCompSyms;
    if k == 0 {
      assert atoms[..1][1..] == [];
    } else {
      AtomsSnoc(nr, group, atoms[1..], k - 1);
      assert atoms[..k + 1][1..] == atoms[1..][..k] && atoms[..k][1..] == atoms[1..][..k - 1];
    }
  }

  lemma {:induction false} GroupsSnoc(nr: nat, group: nat, dnf: Dnf, k: nat)
    requires k < |dnf|
    ensures GroupsSyms(nr, group, dnf[..k + 1]) ==
            GroupsSyms(nr, group, dnf[..k]) + (AtomsSyms(nr, group + k, dnf[k]) + GroupTail(nr, group + k))
    decreases |dnf|
  {
    hide AtomsSyms, GroupTail;
    if k == 0 {
      assert dnf[..1][1..] == [];
    } else {
      GroupsSnoc(nr, group + 1, dnf[1..], k - 1);
      assert dnf[..k + 1][1..] == dnf[1..][..k] && dnf[..k][1..] == dnf[1..][..k - 1];
    }
  }

  // ----- Emission into a block list -----

  /** The list under construction stores `syms`. */
  ghost predicate Stores(head: FilterBlock, labels: Table, syms: Syms)
    reads head, head.nodes, labels
  {
    head.Valid() && labels.Valid() && Encodes(labels.names, syms, head.Code())
  }

  /** Appends one block that encodes `more`. */
  method Emit(head: FilterBlock, labels: Table, code: Program, ghost syms: Syms, ghost more: Syms)
    requires Stores(head, labels, syms) && Encodes(labels.names, more, code)
    modifies head, head.Nodes()
    ensures Stores(head, labels, syms + more) && head.instrs.Some?
    ensures |head.blocks| == |old(head.blocks)| + 1
    ensures fresh(head.Nodes() - old(head.Nodes()) - {head})
  {
    hide Encodes;
    EncodesJoin(labels.names, syms, head.Code(), more, code);
    head.Append(code);
  }

  /** Finds or creates a label; false stands for the abort when the table is full. */
  method Lookup(head: FilterBlock, labels: Table, name: Name, ghost syms: Syms) returns (ok: bool, id: nat)
    requires Stores(head, labels, syms)
    modifies labels
    ensures Stores(head, labels, syms) && old(labels.names) <= labels.names
    ensures ok ==> id < |labels.names| && labels.names[id] == name
    ensures labels.wanted == old(labels.wanted) + {name}
    ensures !ok ==> |labels.wanted| > LABELS_MAX
  {
    hide Encodes;
    var r := labels.LabelId(name);
    EncodesGrow(old(labels.names), labels.names, syms, head.Code());
    if r == -1 {
      return false, 0;
    }
    return true, r;
  }

  /** compile_atom, once its tokens are parsed. */
  method CompileAtom(head: FilterBlock, labels: Table, nr: nat, group: nat, atom: AtomExpr,
                     ghost syms: Syms) returns (ok: bool)
    requires Stores(head, labels, syms)
    modifies head, head.Nodes(), labels
    ensures head.Valid() && labels.Valid() && old(labels.names) <= labels.names
    ensures ok ==> Stores(head, labels, syms + ArgCompSyms(atom.op, atom.arg, atom.value, GroupEnd(nr, group)))
    ensures |head.blocks| >= |old(head.blocks)|
    ensures labels.wanted <= old(labels.wanted) + {GroupEnd(nr, group)}
    ensures !ok ==> |labels.wanted| > LABELS_MAX
    ensures fresh(head.Nodes() - old(head.Nodes()) - {head})
  {
    hide Encodes;
    var id;
    ok, id := Lookup(head, labels, GroupEnd(nr, group), syms);
    if !ok {
      return;
    }
    var block, len := ArgComp(atom.op, atom.arg, atom.value, id);
    ArgCompEncodes(labels.names, atom.op, atom.arg, atom.value, GroupEnd(nr, group), id);
    Emit(head, labels, block[..], syms, ArgCompSyms(atom.op, atom.arg, atom.value, GroupEnd(nr, group)));
  }

  /** The loop over one conjunction. */
  method CompileAtoms(head: FilterBlock, labels: Table, nr: nat, group: nat, atoms: seq<AtomExpr>,
                      ghost syms: Syms) returns (ok: bool)
    requires Stores(head, labels, syms)
    modifies head, head.Nodes(), labels
    ensures head.Valid() && labels.Valid() && old(labels.names) <= labels.names
    ensures ok ==> Stores(head, labels, syms + AtomsSyms(nr, group, atoms))
    ensures |head.blocks| >= |old(head.blocks)|
    ensures labels.wanted <= old(labels.wanted) + {GroupEnd(nr, group)}
    ensures !ok ==> |labels.wanted| > LABELS_MAX
    ensures fresh(head.Nodes() - old(head.Nodes()) - {head})
  {
    hide Encodes, ArgCompSyms;
    assert syms + AtomsSyms(nr, group, atoms[..0]) == syms;
    for k := 0 to |atoms|
      invariant Stores(head, labels, syms + AtomsSyms(nr, group, atoms[..k]))
      invariant labels.wanted <= old(labels.wanted) + {GroupEnd(nr, group)}
      invariant old(labels.names) <= labels.names && |head.blocks| >= |old(head.blocks)|
      invariant fresh(head.Nodes() - old(head.Nodes()) - {head})
    {
      AtomsSnoc(nr, group, atoms, k);
      ghost var soFar := AtomsSyms(nr, group, atoms[..k]);
      ok := CompileAtom(head, labels, nr, group, atoms[k], syms + soFar);
      if !ok {
        return;
      }
      assert (syms + soFar) + ArgCompSyms(atoms[k].op, atoms[k].arg, atoms[k].value, GroupEnd(nr, group)) ==
             syms + AtomsSyms(nr, group, atoms[..k + 1]);
    }
    assert atoms[..|atoms|] == atoms;
    ok := true;
  }

  /** One conjunction, its jump to success and its end label. */
  method CompileGroup(head: FilterBlock, labels: Table, nr: nat, group: nat, atoms: seq<AtomExpr>,
                      ghost syms: Syms) returns (ok: bool)
    requires Stores(head, labels, syms)
    modifies head, head.Nodes(), labels
    ensures head.Valid() && labels.Valid() && old(labels.names) <= labels.names
    ensures ok ==> Stores(head, labels, syms + (AtomsSyms(nr, group, atoms) + GroupTail(nr, group)))
    ensures |head.blocks| >= |old(head.blocks)|
    ensures labels.wanted <= old(labels.wanted) + {GroupEnd(nr, group), Success(nr)}
    ensures !ok ==> |labels.wanted| > LABELS_MAX
    ensures fresh(head.Nodes() - old(head.Nodes()) - {head})
  {
    hide AtomsSyms;
    ok := CompileAtoms(head, labels, nr, group, atoms, syms);
    if !ok {
      return;
    }
    ghost var s := syms + AtomsSyms(nr, group, atoms);
    var success, end;
    ok, success := Lookup(head, labels, Success(nr), s);
    if !ok {
      return;
    }
    ok, end := Lookup(head, labels, GroupEnd(nr, group), s);
    if !ok {
      return;
    }
    Emit(head, labels, [SetJumpLabel(success), SetLabel(end)], s, GroupTail(nr, group));
    assert s + GroupTail(nr, group) == syms + (AtomsSyms(nr, group, atoms) + GroupTail(nr, group));
  }

  method CompileGroups(head: FilterBlock, labels: Table, nr: nat, dnf: Dnf, ghost syms: Syms) returns (ok: bool)
    requires Stores(head, labels, syms)
    modifies head, head.Nodes(), labels
    ensures head.Valid() && labels.Valid() && old(labels.names) <= labels.names
    ensures ok ==> Stores(head, labels, syms + GroupsSyms(nr, 0, dnf))
    ensures |head.blocks| >= |old(head.blocks)|
    ensures labels.wanted <= old(labels.wanted) + (GroupLabels(nr, 0, |dnf|) + {Success(nr)})
    ensures !ok ==> |labels.wanted| > LABELS_MAX
    ensures fresh(head.Nodes() - old(head.Nodes()) - {head})
  {
    hide Encodes, AtomsSyms, GroupTail;
    assert syms + GroupsSyms(nr, 0, dnf[..0]) == syms;
    for k := 0 to |dnf|
      invariant Stores(head, labels, syms + GroupsSyms(nr, 0, dnf[..k]))
      invariant labels.wanted <= old(labels.wanted) + (GroupLabels(nr, 0, |dnf|) + {Success(nr)})
      invariant old(labels.names) <= labels.names && |head.blocks| >= |old(head.blocks)|
      invariant fresh(head.Nodes() - old(head.Nodes()) - {head})
    {
      GroupsSnoc(nr, 0, dnf, k);
      GroupLabelsAre(nr, 0, |dnf|, GroupEnd(nr, k));
      ghost var soFar := GroupsSyms(nr, 0, dnf[..k]);
      ok := CompileGroup(head, labels, nr, k, dnf[k], syms + soFar);
      if !ok {
        return;
      }
      assert (syms + soFar) + (AtomsSyms(nr, k, dnf[k]) + GroupTail(nr, k)) == syms + GroupsSyms(nr, 0, dnf[..k + 1]);
    }
    assert dnf[..|dnf|] == dnf;
    ok := true;
  }

  /** compile_errno rejects an errno of -1 and a bare return under the log action. */
  predicate ClauseOk(ret: ReturnClause, action: BlockAction) {
    if ret.ReturnErrno? then ret.errno != -1 else !action.RetLog?
  }

  predicate BodyOk(body: Body, action: BlockAction) {
    match body
    case AlwaysAllow => true
    case AlwaysReturn(ret) => ClauseOk(ret, action)
    case Conditional(_, clause) => clause.Some? ==> ClauseOk(clause.value, action)
  }

  /** compile_policy_line: at least two blocks that encode the line behind its entry label, or null. */
  method CompilePolicyLine(labels: Table, line: Line, entry: nat, action: BlockAction) returns (head: FilterBlock?)
    requires labels.Valid() && entry < |labels.names| && labels.names[entry] == Entry(line.name)
    requires !line.body.AlwaysAllow?
    modifies labels
    ensures labels.Valid() && old(labels.names) <= labels.names
    ensures head != null ==> Stores(head, labels, LineSyms(line, action)) && head.instrs.Some? && |head.nodes| > 1
    ensures head != null ==> fresh(head) && fresh(head.Nodes())
    ensures head != null ==> BodyOk(line.body, action)
    ensures labels.wanted <= old(labels.wanted) + LineLabels(line)
    ensures head == null ==> !BodyOk(line.body, action) || |labels.wanted| > LABELS_MAX
  {
    var list := new FilterBlock();
    Emit(list, labels, [SetLabel(entry)], [], [Mark(Entry(line.name))]);
    ghost var syms: Syms := [Mark(Entry(line.name))];
    assert [] + syms == syms;
    match line.body {
      case AlwaysAllow =>
        return null;
      case AlwaysReturn(ret) =>
        if !ClauseOk(ret, action) {
          return null;
        }
        Emit(list, labels, [Return(ReturnAction(ret, action))], syms, [Plain(Return(ReturnAction(ret, action)))]);
        return list;
      case Conditional(dnf, clause) =>
        var ok := CompileConditional(list, labels, line.nr, dnf, clause, action, syms);
        if !ok {
          return null;
        }
        return list;
    }
  }

  method CompileConditional(head: FilterBlock, labels: Table, nr: nat, dnf: Dnf, clause: Option<ReturnClause>,
                            action: BlockAction,
                            ghost syms: Syms) returns (ok: bool)
    requires Stores(head, labels, syms)
    modifies head, head.Nodes(), labels
    ensures head.Valid() && labels.Valid() && old(labels.names) <= labels.names
    ensures ok ==> Stores(head, labels, syms + BodySyms(nr, Conditional(dnf, clause), action)) && head.instrs.Some?
    ensures ok ==> |head.blocks| > |old(head.blocks)|
    ensures ok ==> BodyOk(Conditional(dnf, clause), action)
    ensures labels.wanted <= old(labels.wanted) + (GroupLabels(nr, 0, |dnf|) + {Success(nr)})
    ensures !ok ==> !BodyOk(Conditional(dnf, clause), action) || |labels.wanted| > LABELS_MAX
    ensures fresh(head.Nodes() - old(head.Nodes()) - {head})
  {
    hide Encodes, GroupsSyms, GroupLabels, SuccessSyms;
    ok := CompileGroups(head, labels, nr, dnf, syms);
    if !ok {
      return;
    }
    ghost var s := syms + GroupsSyms(nr, 0, dnf);
    if clause.Some? && !ClauseOk(clause.value, action) {
      return false;
    }
    var no := ClauseAction(clause, action);
    ReturnEncodes(labels.names, no);
    Emit(head, labels, [Return(no)], s, [Plain(Return(no))]);
    s := s + [Plain(Return(no))];
    var success;
    ok, success := Lookup(head, labels, Success(nr), s);
    if !ok {
      return;
    }
    SuccessEncodes(labels.names, nr, success);
    Emit(head, labels, [SetLabel(success), Return(Allow)], s, SuccessSyms(nr));
    assert s + SuccessSyms(nr) == syms + BodySyms(nr, Conditional(dnf, clause), action);
  }

  lemma ReturnEncodes(table: seq<Name>, action: Action)
    ensures Encodes(table, [Plain(Return(action))], [Return(action)])
  {
  }

  lemma SuccessEncodes(table: seq<Name>, nr: nat, id: nat)
    requires id < |table| && table[id] == Success(nr)
    ensures Encodes(table, SuccessSyms(nr), [SetLabel(id), Return(Allow)])
  {
  }
}
