/** compile_file and compile_filter of syscall_filter.c: the items of a policy file
    become one BPF program. */
module PolicyFile {
  import opened Bits
  import opened Machine
  import opened Filters
  import opened Labels
  import opened Encoding
  import opened Compare
  import opened BlockList
  import opened SyscallFilter
  import opened LabelUse
  import opened PolicyLine
  import opened PolicyItems
  import opened Sets

  // ----- The compiler -----

  function HeadSyms(lines: seq<Line>, o: Options, archNr: U32): Syms {
    Prologue(archNr) + LogRows(o.logging) + Rows(lines)
  }

  lemma {:induction false} RowsSnoc(lines: seq<Line>, line: Line, o: Options, archNr: U32)
    ensures HeadSyms(lines + [line], o, archNr) == HeadSyms(lines, o, archNr) + RowSyms(line)
    ensures ArgSyms(lines + [line], o.action) == ArgSyms(lines, o.action) + LineSyms(line, o.action)
  {
    hide RowSyms, LineSyms, Prologue, LogRows;
    var all := lines + [line];
    assert all[..|all| - 1] == lines && all[|all| - 1] == line;
  }

  ghost predicate Known(lines: seq<Line>, o: Options) {
    forall i :: 0 <= i < |lines| ==> lines[i].nr == o.lookup(lines[i].name)
  }

  lemma AllowAddsNoArgs(line: Line, action: BlockAction)
    ensures line.body.AlwaysAllow? ==> LineSyms(line, action) == [] && RowSyms(line) == LogRow(line.nr)
  {
  }

  lemma {:induction false} LabelsSnoc(lines: seq<Line>, line: Line)
    ensures LabelsOf(lines + [line]) == LabelsOf(lines) + LineLabels(line)
    ensures !line.body.AlwaysAllow? ==> Entry(line.name) in LineLabels(line)
    ensures line.body.AlwaysAllow? ==> LineLabels(line) == {}
  {
    var all := lines + [line];
    assert all[..|all| - 1] == lines && all[|all| - 1] == line;
  }

  lemma KnownSnoc(lines: seq<Line>, line: Line, o: Options)
    requires Known(lines, o) && line.nr == o.lookup(line.name)
    ensures Known(lines + [line], o)
  {
  }

  class FilterCompiler {
    const options: Options
    const archNr: U32
    const labels: Table
    const head: FilterBlock
    var args: FilterBlock?
    var seen: set<string>
    ghost var lines: seq<Line>

    ghost predicate ArgsValid()
      reads this, args, if args == null then {} else args.Nodes()
    {
      args != null ==> args.Valid() && args.instrs.Some? && args in args.Nodes()
    }

    ghost predicate HeadValid()
      reads this, head, head.Nodes()
    {
      head.Valid() && head.instrs.Some?
    }

    /** What the two lists store, label names being read off the table. */
    ghost predicate Valid()
      reads this, labels, head, head.Nodes(), args, if args == null then {} else args.Nodes()
    {
      && HeadValid() && ArgsValid() && labels.Valid()
      && (args != null ==> Apart(head.nodes, args.nodes))
      && Encodes(labels.names, HeadSyms(lines, options, archNr), head.Code())
      && Encodes(labels.names, ArgSyms(lines, options.action), ListCode(args))
      && Known(lines, options)
      && labels.wanted <= LabelsOf(lines)
    }

    ghost function Repr(): set<object>
      reads this, head, args
    {
      {this, labels, head} + head.Nodes() + if args == null then {} else {args} + args.Nodes()
    }

    constructor (o: Options, archNr: U32)
      ensures options == o && this.archNr == archNr && args == null && lines == [] && seen == {}
      ensures fresh(labels) && labels.Valid() && labels.wanted == {} && fresh(head) && head.Valid() && head.nodes == [] && head.blocks == []
    {
      var table := new BpfLabels<Name>();
      var list := new FilterBlock();
      options, this.archNr, labels, head, args, seen, lines := o, archNr, table, list, null, {}, [];
    }

    /** The head of the filter: architecture check, load of the syscall number, syscalls needed for logging. */
    method EmitProlog()
      requires head.Valid() && head.blocks == [] && labels.Valid() && labels.wanted == {} && lines == [] && args == null
      modifies head, head.Nodes()
      ensures Valid() && fresh(head.Nodes() - old(head.Nodes()) - {head})
    {
      hide Encodes, ArchCheck, Plains, Prologue;
      PrologueEncodes(labels.names, archNr);
      ghost var check, load: Syms := Plains(ArchCheck(archNr)), [Plain(Stmt(LdAbs, 0))];
      assert head.Code() == [] && [] + check == check;
      Emit(head, labels, ArchCheck(archNr), [], check);
      Emit(head, labels, [Stmt(LdAbs, 0)], check, load);
      AllowLogging();
    }

    /** allow_logging_syscalls */
    method AllowLogging()
      requires Stores(head, labels, Prologue(archNr)) && head.instrs.Some? && labels.wanted == {} && lines == [] && args == null
      modifies head, head.Nodes()
      ensures Valid() && fresh(head.Nodes() - old(head.Nodes()) - {head})
    {
      hide Encodes, Prologue;
      ghost var base := Prologue(archNr);
      assert base + LogRows(options.logging[..0]) == base;
      for i := 0 to |options.logging|
        invariant Stores(head, labels, base + LogRows(options.logging[..i])) && head.instrs.Some?
        invariant fresh(head.Nodes() - old(head.Nodes()) - {head})
      {
        var nr := options.logging[i];
        RowEncodes(labels.names, nr);
        assert options.logging[..i + 1][..i] == options.logging[..i];
        Emit(head, labels, [JumpIf(Jeq, nr, 0, 1), Return(Allow)], base + LogRows(options.logging[..i]), LogRow(nr));
        assert (base + LogRows(options.logging[..i])) + LogRow(nr) == base + LogRows(options.logging[..i + 1]);
      }
      assert options.logging[..|options.logging|] == options.logging;
      assert HeadSyms([], options, archNr) == base + LogRows(options.logging);
      EncodesNothing(labels.names);
    }

    method AddAllowRow(line: Line)
      requires HeadValid() && ArgsValid() && labels.Valid() && (args != null ==> Apart(head.nodes, args.nodes))
      requires Encodes(labels.names, HeadSyms(lines, options, archNr), head.Code())
      requires Encodes(labels.names, ArgSyms(lines, options.action), ListCode(args))
      requires line.body.AlwaysAllow?
      modifies head, head.Nodes()
      ensures HeadValid() && ArgsValid() && labels.Valid() && (args != null ==> Apart(head.nodes, args.nodes))
      ensures Encodes(labels.names, HeadSyms(lines + [line], options, archNr), head.Code())
      ensures Encodes(labels.names, ArgSyms(lines + [line], options.action), ListCode(args))
      ensures fresh(head.Nodes() - old(head.Nodes()) - {head})
      ensures args != null ==> args.nodes == old(args.nodes)
    {
      hide Encodes, HeadSyms, ArgSyms, LineSyms, RowSyms;
      RowEncodes(labels.names, line.nr);
      RowsSnoc(lines, line, options, archNr);
      AllowAddsNoArgs(line, options.action);
      Emit(head, labels, [JumpIf(Jeq, line.nr, 0, 1), Return(Allow)], HeadSyms(lines, options, archNr), RowSyms(line));
      assert ArgSyms(lines + [line], options.action) == ArgSyms(lines, options.action);
      if args != null {
        forall n | n in head.nodes
          ensures n !in args.nodes
        {
          assert n in head.Nodes();
          assert n in old(head.Nodes()) ==> n in old(head.nodes);
        }
      }
    }

    /** A line that always allows only gets a row in the table. */
    method AddAllow(line: Line)
      requires Valid() && line.body.AlwaysAllow? && line.nr == options.lookup(line.name)
      modifies Repr()
      ensures Valid() && labels.Valid() && lines == old(lines) + [line] && seen == old(seen)
      ensures fresh(Repr() - old(Repr())) && labels.names == old(labels.names)
    {
      hide Encodes, HeadSyms, ArgSyms, FilterBlock.Valid, Apart, Table.Valid, LabelsOf, LineLabels;
      AddAllowRow(line);
      LabelsSnoc(lines, line);
      KnownSnoc(lines, line, options);
      lines := lines + [line];
    }

    /** The entry label of a line. */
    method AskEntry(line: Line) returns (id: int)
      requires labels.Valid() && labels.wanted <= LabelsOf(lines) && !line.body.AlwaysAllow?
      modifies labels
      ensures labels.Valid() && labels.wanted <= LabelsOf(lines) + {Entry(line.name)} && old(labels.names) <= labels.names
      ensures id == -1 ==> |LabelsOf(lines + [line])| > LABELS_MAX
      ensures id != -1 ==> 0 <= id < |labels.names| && labels.names[id] == Entry(line.name)
    {
      hide LabelsOf, LineLabels, Table.Valid;
      LabelsSnoc(lines, line);
      SubsetSize(labels.wanted + {Entry(line.name)}, LabelsOf(lines + [line]));
      id := labels.LabelId(Entry(line.name));
    }

    /** Any other line gets a row that jumps to its arg filter, and the arg filter itself. */
    method AddFilter(line: Line) returns (ok: bool)
      requires Valid() && !line.body.AlwaysAllow? && line.nr == options.lookup(line.name)
      modifies Repr()
      ensures labels.Valid() && old(labels.names) <= labels.names
      ensures ok ==> Valid() && lines == old(lines) + [line] && seen == old(seen) && BodyOk(line.body, options.action)
      ensures !ok ==> !BodyOk(line.body, options.action) || |LabelsOf(old(lines) + [line])| > LABELS_MAX
      ensures fresh(Repr() - old(Repr()))
    {
      hide Encodes, HeadSyms, ArgSyms, BodyOk, HeadValid, ArgsValid, Apart, Table.Valid, LabelsOf, LineLabels;
      var id := AskEntry(line);
      if id == -1 {
        return false;
      }
      Regrow(old(labels.names));
      ok := AddLabelled(line, id);
    }

    method AddLabelled(line: Line, id: nat) returns (ok: bool)
      requires HeadValid() && ArgsValid() && labels.Valid() && (args != null ==> Apart(head.nodes, args.nodes))
      requires Encodes(labels.names, HeadSyms(lines, options, archNr), head.Code())
      requires Encodes(labels.names, ArgSyms(lines, options.action), ListCode(args))
      requires Known(lines, options) && labels.wanted <= LabelsOf(lines) + {Entry(line.name)}
      requires !line.body.AlwaysAllow? && line.nr == options.lookup(line.name)
      requires id < |labels.names| && labels.names[id] == Entry(line.name)
      modifies Repr()
      ensures labels.Valid() && old(labels.names) <= labels.names
      ensures ok ==> Valid() && lines == old(lines) + [line] && seen == old(seen) && BodyOk(line.body, options.action)
      ensures !ok ==> !BodyOk(line.body, options.action) || |LabelsOf(old(lines) + [line])| > LABELS_MAX
      ensures fresh(Repr() - old(Repr()))
    {
      hide Encodes, HeadSyms, ArgSyms, BodyOk, HeadValid, ArgsValid, Apart, Table.Valid, LabelsOf, LineLabels;
      KnownSnoc(lines, line, options);
      AddJumpRow(line, id);
      ok := AddArgs(line, id);
    }

    method AddJumpRow(line: Line, id: nat)
      requires HeadValid() && ArgsValid() && labels.Valid() && (args != null ==> Apart(head.nodes, args.nodes))
      requires Encodes(labels.names, HeadSyms(lines, options, archNr), head.Code())
      requires Encodes(labels.names, ArgSyms(lines, options.action), ListCode(args))
      requires !line.body.AlwaysAllow? && id < |labels.names| && labels.names[id] == Entry(line.name)
      modifies head, head.Nodes()
      ensures HeadValid() && ArgsValid() && labels.Valid() && (args != null ==> Apart(head.nodes, args.nodes))
      ensures Encodes(labels.names, HeadSyms(lines + [line], options, archNr), head.Code())
      ensures Encodes(labels.names, ArgSyms(lines, options.action), ListCode(args))
      ensures fresh(head.Nodes() - old(head.Nodes()) - {head})
      ensures args != null ==> args.nodes == old(args.nodes)
    {
      hide Encodes, HeadSyms, ArgSyms, LineSyms, RowSyms;
      JumpRowEncodes(labels.names, line, id);
      RowsSnoc(lines, line, options, archNr);
      Emit(head, labels, [JumpIf(Jeq, line.nr, 0, 1), SetJumpLabel(id)], HeadSyms(lines, options, archNr), RowSyms(line));
      if args != null {
        forall n | n in head.nodes
          ensures n !in args.nodes
        {
          assert n in head.Nodes();
          assert n in old(head.Nodes()) ==> n in old(head.nodes);
        }
      }
    }

    /** If no line matches, the default action. */
    method AppendDefault()
      requires Valid()
      modifies head, head.Nodes()
      ensures HeadValid() && ArgsValid() && labels.Valid()
      ensures Encodes(labels.names, HeadSyms(lines, options, archNr) + [Plain(Return(Fallback(options.action)))], head.Code())
      ensures Encodes(labels.names, ArgSyms(lines, options.action), ListCode(args))
      ensures fresh(head.Nodes() - old(head.Nodes()) - {head})
    {
      hide Encodes, HeadSyms, ArgSyms;
      var default := Return(Fallback(options.action));
      DefaultEncodes(labels.names, options.action);
      Emit(head, labels, [default], HeadSyms(lines, options, archNr), [Plain(default)]);
    }

    /** The table grew: what is stored still means the same. */
    lemma Regrow(names: seq<Name>)
      requires names <= labels.names
      requires Encodes(names, HeadSyms(lines, options, archNr), head.Code())
      requires Encodes(names, ArgSyms(lines, options.action), ListCode(args))
      ensures Encodes(labels.names, HeadSyms(lines, options, archNr), head.Code())
      ensures Encodes(labels.names, ArgSyms(lines, options.action), ListCode(args))
    {
      EncodesGrow(names, labels.names, HeadSyms(lines, options, archNr), head.Code());
      EncodesGrow(names, labels.names, ArgSyms(lines, options.action), ListCode(args));
    }

    method AddArgs(line: Line, id: nat) returns (ok: bool)
      requires HeadValid() && ArgsValid() && labels.Valid() && (args != null ==> Apart(head.nodes, args.nodes))
      requires !line.body.AlwaysAllow? && id < |labels.names| && labels.names[id] == Entry(line.name)
      requires Known(lines + [line], options) && labels.wanted <= LabelsOf(lines) + {Entry(line.name)}
      requires Encodes(labels.names, HeadSyms(lines + [line], options, archNr), head.Code())
      requires Encodes(labels.names, ArgSyms(lines, options.action), ListCode(args))
      modifies this, labels, args, if args == null then {} else args.Nodes()
      ensures labels.Valid() && old(labels.names) <= labels.names
      ensures ok ==> Valid() && lines == old(lines) + [line] && seen == old(seen) && BodyOk(line.body, options.action)
      ensures !ok ==> !BodyOk(line.body, options.action) || |LabelsOf(old(lines) + [line])| > LABELS_MAX
      ensures fresh(Repr() - old(Repr()))
    {
      hide Encodes, HeadSyms, ArgSyms, LineSyms, BodyOk;
      LabelsSnoc(lines, line);
      var block := CompilePolicyLine(labels, line, id, options.action);
      SubsetSize(labels.wanted, LabelsOf(lines + [line]));
      if block == null {
        args := null;
        return false;
      }
      EncodesGrow(old(labels.names), labels.names, HeadSyms(lines + [line], options, archNr), head.Code());
      EncodesGrow(old(labels.names), labels.names, ArgSyms(lines, options.action), ListCode(args));
      forall n | n in block.nodes
        ensures n !in head.nodes && (args != null ==> n !in args.nodes)
      {
        assert n in block.Nodes();
      }
      Link(line, block);
      ok := true;
    }

    /** `extend_filter_block_list`, or the first arg filter. */
    method Link(line: Line, block: FilterBlock)
      requires HeadValid() && ArgsValid() && labels.Valid() && (args != null ==> Apart(head.nodes, args.nodes))
      requires block.Valid() && block.instrs.Some? && |block.nodes| > 1 && Known(lines + [line], options)
      requires Apart(head.nodes, block.nodes) && (args != null ==> Apart(args.nodes, block.nodes))
      requires Encodes(labels.names, HeadSyms(lines + [line], options, archNr), head.Code())
      requires Encodes(labels.names, ArgSyms(lines, options.action), ListCode(args))
      requires Encodes(labels.names, LineSyms(line, options.action), block.Code())
      requires labels.wanted <= LabelsOf(lines + [line])
      modifies this, args, if args == null then {} else args.Nodes()
      ensures Valid() && lines == old(lines) + [line] && seen == old(seen)
      ensures args == block || args == old(args)
      ensures Repr() <= old(Repr()) + {block} + old(block.Nodes())
    {
      hide Encodes, HeadSyms, ArgSyms, LineSyms;
      RowsSnoc(lines, line, options, archNr);
      EncodesJoin(labels.names, ArgSyms(lines, options.action), ListCode(args), LineSyms(line, options.action), block.Code());
      if args != null {
        ghost var mine := args.nodes;
        args.Extend(block);
        assert Apart(head.nodes, args.nodes) by {
          forall n | n in head.nodes
            ensures n !in args.nodes
          {
            assert n !in mine && n !in block.nodes;
          }
        }
        assert args in args.nodes;
      } else {
        assert ListCode(args) + block.Code() == block.Code();
        args := block;
        assert args in args.nodes;
      }
      lines := lines + [line];
    }

    /** compile_file on a file whose lines have been read: the lists grow by exactly the lines the file contributes.
        It fails when the file is not acceptable; the only other reason is that its lines need too many labels. */
    method CompileFile(items: seq<Item>, level: nat) returns (ret: int)
      requires Valid() && labels.Valid()
      modifies Repr()
      ensures labels.Valid() && fresh(Repr() - old(Repr()))
      ensures ret == 0 || ret == -1
      ensures var st := Process(items, level, options, Going(old(lines), old(seen), false));
              && (ret == 0 ==> Valid() && Accepted(st) && lines == st.lines && seen == st.seen)
              && (ret == -1 ==> !Accepted(st) || |LabelsOf(st.lines)| > LABELS_MAX)
      decreases items
    {
      hide Valid, Step, BodyOk;
      ret := 0;
      ghost var start := Going(lines, seen, false);
      for k := 0 to |items|
        invariant ret == 0 || ret == -1
        invariant Valid() && labels.Valid() && fresh(Repr() - old(Repr()))
        invariant Process(items[..k], level, options, start) == Going(lines, seen, ret == -1)
      {
        ghost var st := Going(lines, seen, ret == -1);
        assert items[..k + 1][..k] == items[..k];
        ProcessPrefix(items, k, level, options, start);
        var ok, dup := CompileItem(items[k], level);
        if !ok {
          RefusedStays(items, k, level, options, start);
          return -1;
        }
        if dup {
          ret := -1;
        }
      }
      assert items[..|items|] == items;
    }

    /** insert_and_check_duplicate_syscall: true if the syscall is new. */
    method CheckDuplicate(name: string) returns (isNew: bool)
      requires Valid()
      modifies this`seen
      ensures Valid() && seen == old(seen) + {name} && isNew == (name !in old(seen))
    {
      isNew := name !in seen;
      seen := seen + {name};
    }

    /** A regular policy line. */
    method CompileLine(name: string, body: Body) returns (ok: bool, dup: bool)
      requires Valid() && labels.Valid() && Exists(name, options)
      modifies Repr()
      ensures labels.Valid() && fresh(Repr() - old(Repr()))
      ensures dup == (name in old(seen) && !options.allowDuplicates)
      ensures ok ==> Valid() && BodyOk(body, options.action) && seen == old(seen) + {name}
      ensures ok ==> lines == old(lines) + [Line(name, options.lookup(name), body)]
      ensures !ok ==> !BodyOk(body, options.action)
                      || |LabelsOf(old(lines) + [Line(name, options.lookup(name), body)])| > LABELS_MAX
    {
      hide Valid;
      var isNew := CheckDuplicate(name);
      dup := !isNew && !options.allowDuplicates;
      var line := Line(name, options.lookup(name), body);
      if body.AlwaysAllow? {
        AddAllow(line);
        ok := true;
      } else {
        ok := AddFilter(line);
      }
    }

    /** One turn of the loop. */
    method CompileItem(item: Item, level: nat) returns (ok: bool, dup: bool)
      requires Valid() && labels.Valid()
      modifies Repr()
      ensures labels.Valid() && fresh(Repr() - old(Repr()))
      ensures ok ==> Valid()
      ensures ok ==> forall was: bool :: Step(item, level, options, Going(old(lines), old(seen), was)) == Going(lines, seen, was || dup)
      ensures !ok ==> forall was: bool :: Refused(Step(item, level, options, Going(old(lines), old(seen), was)))
      decreases item
    {
      hide Valid, BodyOk;
      dup := false;
      match item {
        case Malformed =>
          ok := false;
        case Include(inner) =>
          if level > 0 {
            return false, false;
          }
          var ret := CompileFile(inner, level + 1);
          ok := ret == 0;
        case PolicyItem(name, body) =>
          if !Exists(name, options) {
            return options.allowLogging, false;
          }
          ok, dup := CompileLine(name, body);
      }
    }
  }

  lemma PrologueEncodes(table: seq<Name>, archNr: U32)
    ensures Encodes(table, Plains(ArchCheck(archNr)), ArchCheck(archNr))
    ensures Encodes(table, [Plain(Stmt(LdAbs, 0))], [Stmt(LdAbs, 0)])
    ensures Encodes(table, [], [])
    ensures Plains(ArchCheck(archNr)) + [Plain(Stmt(LdAbs, 0))] == Prologue(archNr)
  {
    hide ArchCheck;
    ArchCheckPlain(archNr);
  }

  lemma ArchCheckPlain(archNr: U32)
    ensures forall i :: 0 <= i < |ArchCheck(archNr)| ==> AsSym(ArchCheck(archNr)[i]).Plain?
  {
  }

  lemma RowEncodes(table: seq<Name>, nr: U32)
    ensures Encodes(table, LogRow(nr), [JumpIf(Jeq, nr, 0, 1), Return(Allow)])
    ensures forall line: Line :: line.nr == nr && line.body.AlwaysAllow? ==>
              Encodes(table, RowSyms(line), [JumpIf(Jeq, nr, 0, 1), Return(Allow)])
  {
  }

  lemma JumpRowEncodes(table: seq<Name>, line: Line, id: nat)
    requires id < |table| && table[id] == Entry(line.name) && !line.body.AlwaysAllow?
    ensures Encodes(table, RowSyms(line), [JumpIf(Jeq, line.nr, 0, 1), SetJumpLabel(id)])
  {
  }

  lemma EncodesNothing(table: seq<Name>)
    ensures Encodes(table, [], [])
    ensures ArgSyms([], RetKill) == []
  {
  }

  // ----- compile_filter -----

  /** What a filter returned by compile_filter is promised to do. */
  ghost predicate Decides(code: Program, lines: seq<Line>, o: Options, archNr: U32) {
    forall d: SyscallData, a: nat, m: seq<nat> {:trigger Exec(code, Pack(d), a, m)} ::
      |d.args| == KERNEL_ARGUMENTS && |m| == MEM_WORDS && InRange(lines, KERNEL_ARGUMENTS) ==>
        Exec(code, Pack(d), a, m) == Returned(RetValue(FilterDecision(lines, o.logging, o.action, archNr, d)))
  }

  /** What `Decides` asks of the lines: every condition looks at an argument below `n`. */
  lemma InRangeIs(lines: seq<Line>, n: nat)
    ensures InRange(lines, n) <==>
            forall i, g, a | 0 <= i < |lines| && lines[i].body.Conditional? && 0 <= g < |lines[i].body.dnf|
                             && 0 <= a < |lines[i].body.dnf[g]| :: lines[i].body.dnf[g][a].arg < n
  {
    if InRange(lines, n) {
      forall i, g, a | 0 <= i < |lines| && lines[i].body.Conditional? && 0 <= g < |lines[i].body.dnf|
                       && 0 <= a < |lines[i].body.dnf[g]|
        ensures lines[i].body.dnf[g][a].arg < n
      {
        assert BodyInRange(lines[i].body, n);
        assert ClauseInRange(lines[i].body.dnf[g], n);
      }
    }
  }

  /** On a foreign architecture a compiled filter kills the thread. */
  lemma {:induction false} FilterKillsForeign(code: Program, lines: seq<Line>, o: Options, archNr: U32, d: SyscallData, a: nat,
                           m: seq<nat>)
    requires Decides(code, lines, o, archNr) && InRange(lines, 6) && |d.args| == 6 && |m| == 16
    requires d.arch != archNr
    ensures Exec(code, Pack(d), a, m) == Returned(0)
  {
    hide Exec, Pack, FirstLine;
  }

  /** A syscall that logging needs is allowed, whatever the lines say; one that no line names gets the default. */
  lemma {:induction false} FilterWithoutLine(code: Program, lines: seq<Line>, o: Options, archNr: U32, d: SyscallData,
                                             a: nat, m: seq<nat>)
    requires Decides(code, lines, o, archNr) && InRange(lines, 6) && |d.args| == 6 && |m| == 16
    requires d.arch == archNr
    ensures d.nr in o.logging ==> Exec(code, Pack(d), a, m) == Returned(0x7fff_0000)
    ensures d.nr !in o.logging && (forall i :: 0 <= i < |lines| ==> lines[i].nr != d.nr) ==>
              Exec(code, Pack(d), a, m) ==
              Returned(match o.action case RetKill => 0 case RetTrap => 0x3_0000 case RetLog => 0x7ffc_0000
                       case RetKillProcess => 0x8000_0000)
  {
    hide Exec, Pack;
    if d.nr !in o.logging && forall i :: 0 <= i < |lines| ==> lines[i].nr != d.nr {
      FirstLineAt(lines, o.action, d.nr, d.args, |lines|);
    }
  }

  /** Otherwise the first line that names the syscall decides: allow, the errno it returns, or the default; a
      conditional line allows when its condition holds. */
  lemma {:induction false} FilterFollowsLine(code: Program, lines: seq<Line>, o: Options, archNr: U32, d: SyscallData,
                                             a: nat, m: seq<nat>, i: nat)
    requires Decides(code, lines, o, archNr) && InRange(lines, 6) && |d.args| == 6 && |m| == 16
    requires d.arch == archNr && d.nr !in o.logging
    requires i < |lines| && lines[i].nr == d.nr && forall j :: 0 <= j < i ==> lines[j].nr != d.nr
    ensures var otherwise := match o.action
                             case RetKill => 0
                             case RetTrap => 0x3_0000
                             case RetLog => 0x7ffc_0000
                             case RetKillProcess => 0x8000_0000;
            Exec(code, Pack(d), a, m) ==
            Returned(match lines[i].body
                     case AlwaysAllow => 0x7fff_0000
                     case AlwaysReturn(ReturnErrno(n)) => 0x5_0000 + n % 0x1_0000
                     case AlwaysReturn(ReturnDefault) => otherwise
                     case Conditional(dnf, clause) =>
                       if DnfHolds(dnf, d.args) then 0x7fff_0000
                       else if clause.Some? && clause.value.ReturnErrno? then 0x5_0000 + clause.value.errno % 0x1_0000
                       else otherwise)
  {
    hide Exec, Pack, DnfHolds;
    FirstLineAt(lines, o.action, d.nr, d.args, i);
  }

  lemma {:induction false} FirstLineAt(lines: seq<Line>, action: BlockAction, nr: U32, args: seq<U64>, i: nat)
    requires i <= |lines| && (forall j :: 0 <= j < i ==> lines[j].nr != nr) && (i < |lines| ==> lines[i].nr == nr)
    ensures FirstLine(lines, action, nr, args) ==
            if i < |lines| then LineAction(lines[i].body, action, args) else Fallback(action)
  {
    hide LineAction;
    if i > 0 {
      assert forall j :: 0 <= j < |lines| - 1 ==> lines[1..][j] == lines[j + 1];
      FirstLineAt(lines[1..], action, nr, args, i - 1);
    }
  }

  /** A resolved program runs like the program with label names that it stores. */
  lemma {:induction false} DecidesBy(table: seq<Name>, code: Program, lines: seq<Line>, o: Options, archNr: U32)
    requires NoRepeats(table) && Known(lines, o) && Resolve(code).Some?
    requires Encodes(table, FilterSyms(lines, o.logging, o.action, archNr), code)
    ensures Decides(Resolve(code).value, lines, o, archNr)
  {
    hide Encodes, NoRepeats, Resolve, FilterSyms, Exec, SymExec, Pack, FilterDecision, AsSyms;
    var final := Resolve(code).value;
    assert Consistent(lines);
    forall d: SyscallData, a: nat, m: seq<nat> {:trigger Exec(final, Pack(d), a, m)}
      | |d.args| == KERNEL_ARGUMENTS && |m| == MEM_WORDS && InRange(lines, KERNEL_ARGUMENTS)
      ensures Exec(final, Pack(d), a, m) == Returned(RetValue(FilterDecision(lines, o.logging, o.action, archNr, d)))
    {
      ResolveRuns(code, Pack(d), a, m);
      EncodedRuns(table, FilterSyms(lines, o.logging, o.action, archNr), code, Pack(d), a, m);
      FilterRuns(lines, o.logging, o.action, archNr, d, a, m);
    }
  }

  lemma MarksInTable(table: seq<Name>, syms: Syms, code: Program)
    requires Encodes(table, syms, code)
    ensures forall i :: 0 <= i < |code| && AsSym(code[i]).Mark? ==> code[i].k < |table|
  {
    forall i | 0 <= i < |code| && AsSym(code[i]).Mark?
      ensures code[i].k < |table|
    {
      assert EncodesOne(table, syms[i], code[i]);
    }
  }

  /** compile_filter returns 0 exactly on a file that can be read and whose filter can be emitted: nothing in it is to
      give up at, no include is nested, no name comes twice unless allowed, and the lines of existing syscalls, includes
      in place, fit 4096 instructions and 512 labels and have distinct filters.  The program then decides every syscall
      as these lines say. */
  method CompileFilter(items: seq<Item>, o: Options, archNr: U32) returns (ret: int, program: Program)
    ensures ret == 0 || ret == -1
    ensures var st := Process(items, 0, o, Going([], {}, false));
            && (ret == 0 <==> Accepted(st) && Compiles(st.lines, o))
            && (ret == 0 ==> |program| <= MAX_INSNS && Decides(program, st.lines, o, archNr))
    ensures var lines := Wanted(Inlined(items), o);
            && (ret == 0 <==>
                  && IncludesFlat(items) && NoFatal(Inlined(items), o)
                  && (o.allowDuplicates || forall i, j :: 0 <= i < j < |lines| ==> lines[i].name != lines[j].name)
                  && !(o.action.RetLog? && !o.allowLogging)
                  && FilterLength(lines, o.logging) <= 4096 && LabelCount(lines) <= 512
                  && DistinctFilters(lines))
            && (ret == 0 ==> |program| <= 4096 && Decides(program, lines, o, archNr))
  {
    hide Encodes, Decides, Process, Resolve, HeadSyms, ArgSyms, LabelsOf, DistinctFilters, FilterLength, LabelCount,
         IncludesFlat, NoFatal, Inlined, Wanted;
    ReadingIs(items, o);
    var c := new FilterCompiler(o, archNr);
    c.EmitProlog();
    ret := c.CompileFile(items, 0);
    ghost var st := Process(items, 0, o, Going([], {}, false));
    if ret != 0 {
      if st.Going? {
        LabelsCounted(st.lines);
      }
      return -1, [];
    }
    if o.action.RetLog? && !o.allowLogging {
      return -1, [];
    }
    ret, program := Finish(c);
  }

  /** The filter for these lines can be emitted: logging is allowed if it is the action, the filter is short enough, no
      syscall has two filters, and the labels fit the table. */
  ghost predicate Compiles(lines: seq<Line>, o: Options) {
    && !(o.action.RetLog? && !o.allowLogging)
    && FilterLength(lines, o.logging) <= MAX_INSNS
    && DistinctFilters(lines)
    && LabelCount(lines) <= LABELS_MAX
  }

  /** The default action, the final buffer, and label resolution. */
  method Finish(c: FilterCompiler) returns (ret: int, program: Program)
    requires c.Valid() && !(c.options.action.RetLog? && !c.options.allowLogging)
    modifies c.Repr()
    ensures ret == 0 || ret == -1
    ensures ret == 0 <==> Compiles(old(c.lines), c.options)
    ensures ret == 0 ==> |program| <= MAX_INSNS && Decides(program, old(c.lines), c.options, c.archNr)
  {
    hide Encodes, Decides, Resolve, Resolvable, HeadSyms, ArgSyms, Concat, FilterSyms, DistinctFilters, FilterLength, LabelCount;
    ghost var lines, names := c.lines, c.labels.names;
    c.AppendDefault();
    FilterEncodes(names, lines, c.options, c.archNr, c.head.Code(), ListCode(c.args));
    ghost var code := c.head.Code() + ListCode(c.args);
    ghost var syms := FilterSyms(lines, c.options.logging, c.options.action, c.archNr);
    MarksInTable(names, syms, code);
    ResolvesWhen(names, syms, code);
    ResolvableWhenDistinct(lines, c.options.logging, c.options.action, c.archNr);
    FilterLengthIs(lines, c.options.logging, c.options.action, c.archNr);
    if DistinctFilters(lines) {
      LabelsFit(names, lines, c.options.action, ListCode(c.args));
    }
    var filter := FlattenAll(c.head, c.args);
    if filter == null {
      return -1, [];
    }
    assert filter[..filter.Length] == filter[..] == code;
    ret := ResolveJumps(c.labels, filter, filter.Length);
    program := filter[..];
    if ret == 0 {
      assert filter[..filter.Length] == filter[..];
      DecidesBy(names, code, lines, c.options, c.archNr);
    }
  }

  /** The labels that are placed are in the table, so there are not too many of them. */
  lemma {:induction false} LabelsFit(table: seq<Name>, lines: seq<Line>, action: BlockAction, code: Program)
    requires Encodes(table, ArgSyms(lines, action), code) && |table| <= LABELS_MAX && DistinctFilters(lines)
    ensures LabelCount(lines) <= LABELS_MAX
  {
    hide ArgSyms, LabelsOf, LabelCount, DistinctFilters;
    LabelsCounted(lines);
    ArgsPlace(lines, action);
    var syms := ArgSyms(lines, action);
    var inTable := set i | 0 <= i < |table| :: table[i];
    forall name | name in LabelsOf(lines)
      ensures name in inTable
    {
      assert Mark(name) in syms;
      var i :| 0 <= i < |syms| && syms[i] == Mark(name);
      assert EncodesOne(table, syms[i], code[i]);
    }
    SubsetSize(LabelsOf(lines), inTable);
    TableSize(table, inTable);
  }

  lemma {:induction false} TableSize(table: seq<Name>, names: set<Name>)
    requires names == set i | 0 <= i < |table| :: table[i]
    ensures |names| <= |table|
  {
    if table != [] {
      var n := |table| - 1;
      var before := set i | 0 <= i < n :: table[..n][i];
      TableSize(table[..n], before);
      assert names == before + {table[n]} by {
        forall name | name in names
          ensures name in before + {table[n]}
        {
          var i :| 0 <= i < |table| && table[i] == name;
          if i < n {
            assert table[..n][i] == name;
          }
        }
        forall name | name in before
          ensures name in names
        {
          var i :| 0 <= i < n && table[..n][i] == name;
          assert table[i] == name;
        }
      }
      UnionSize(before, {table[n]});
    }
  }

  lemma {:induction false} ResolvesWhen(table: seq<Name>, syms: Syms, code: Program)
    requires Encodes(table, syms, code) && NoRepeats(table)
    ensures |syms| == |code|
    ensures Resolve(code).Some? <==> Resolvable(syms)
  {
    ResolveIff(code);
    EncodedResolvable(table, syms, code);
  }

  /** The final buffer: the two lists fill it exactly, or it would be too long. */
  method FlattenAll(head: FilterBlock, args: FilterBlock?) returns (filter: array?<SockFilter>)
    requires head.Valid() && head.instrs.Some? && (args != null ==> args.Valid() && args.instrs.Some?)
    ensures filter == null <==> |head.Code() + ListCode(args)| > MAX_INSNS
    ensures filter != null ==> fresh(filter) && filter[..] == head.Code() + ListCode(args)
    ensures filter != null ==> filter.Length == |head.Code() + ListCode(args)| <= MAX_INSNS
  {
    hide Concat;
    var len := head.totalLen + if args == null then 0 else args.totalLen;
    if len > MAX_INSNS {
      return null;
    }
    filter := new SockFilter[len](_ => Stmt(Ret, 0));
    var r := FlattenBlockList(head, filter, 0, len);
    assert filter[..head.totalLen] == head.Code();
    r := FlattenBlockList(args, filter, head.totalLen, len);
  }

  lemma DefaultEncodes(table: seq<Name>, action: BlockAction)
    ensures Encodes(table, [Plain(Return(Fallback(action)))], [Return(Fallback(action))])
  {
  }

  lemma {:induction false} FilterEncodes(table: seq<Name>, lines: seq<Line>, o: Options, archNr: U32, head: Program,
                                         args: Program)
    requires Encodes(table, HeadSyms(lines, o, archNr) + [Plain(Return(Fallback(o.action)))], head)
    requires Encodes(table, ArgSyms(lines, o.action), args)
    ensures Encodes(table, FilterSyms(lines, o.logging, o.action, archNr), head + args)
    ensures |head| > 0
  {
    hide ArgSyms, Prologue, LogRows, Rows;
    EncodesJoin(table, HeadSyms(lines, o, archNr) + [Plain(Return(Fallback(o.action)))], head, ArgSyms(lines, o.action), args);
  }
}
