/** Which lines a policy file of syscall_filter.c contributes: compile_file with its
    includes, duplicates and refusals, without the code it emits. */
module PolicyItems {
  import opened Bits
  import opened Machine
  import opened Labels
  import opened SyscallFilter
  import opened LabelUse
  import opened PolicyLine
  import opened Sets

  /** struct filter_options, with the syscalls allowed for logging, if any, and the syscall table: `lookup` gives
      the number of a syscall, or a negative value if there is none. */
  datatype Options = Options(action: BlockAction, allowLogging: bool, allowDuplicates: bool, logging: seq<U32>,
                             lookup: string -> int)

  /** A line of a policy file, once read and split: something malformed, a policy line, or an @include with the
      lines of the included file. */
  datatype Item = Malformed | PolicyItem(name: string, body: Body) | Include(items: seq<Item>)

  predicate Exists(name: string, o: Options) { 0 <= o.lookup(name) < TWO32 }

  // ----- Which lines a file contributes -----

  /** The state of compile_file: given up, or the lines so far, the syscalls seen, and whether a forbidden
      duplicate was met. */
  datatype FileState = Stopped | Going(lines: seq<Line>, seen: set<string>, duplicate: bool)

  function Step(item: Item, level: nat, o: Options, st: FileState): FileState
    decreases item, 1
  {
    if st.Stopped? then Stopped
    else match item
         case Malformed => Stopped
         case Include(items) =>
           if level > 0 then Stopped
           else
             var inner := Process(items, level + 1, o, Going(st.lines, st.seen, false));
             if inner.Stopped? || inner.duplicate then Stopped else Going(inner.lines, inner.seen, st.duplicate)
         case PolicyItem(name, body) =>
           if !Exists(name, o) then (if o.allowLogging then st else Stopped)
           else if !BodyOk(body, o.action) then Stopped
           else Going(st.lines + [Line(name, o.lookup(name), body)], st.seen + {name},
                      st.duplicate || (name in st.seen && !o.allowDuplicates))
  }

  function Process(items: seq<Item>, level: nat, o: Options, st: FileState): FileState
    decreases items, 0
  {
    if items == [] then st
    else
      var last := items[|items| - 1];
      assert last in items;
      Step(last, level, o, Process(items[..|items| - 1], level, o, st))
  }

  predicate Accepted(st: FileState) { st.Going? && !st.duplicate }

  /** The file with the lines of its includes in place of the include statements. */
  function Inlined(items: seq<Item>): seq<Item> {
    if items == [] then []
    else
      var last := items[|items| - 1];
      Inlined(items[..|items| - 1]) + if last.Include? then last.items else [last]
  }

  predicate NoIncludes(items: seq<Item>) {
    forall i :: 0 <= i < |items| ==> !items[i].Include?
  }

  predicate IncludesFlat(items: seq<Item>) {
    forall i :: 0 <= i < |items| && items[i].Include? ==> NoIncludes(items[i].items)
  }

  lemma {:induction false} ProcessJoin(a: seq<Item>, b: seq<Item>, level: nat, o: Options, st: FileState)
    ensures Process(a + b, level, o, st) == Process(b, level, o, Process(a, level, o, st))
    decreases |b|
  {
    if b == [] {
      assert a + b == a;
    } else {
      ProcessJoin(a, b[..|b| - 1], level, o, st);
      assert (a + b)[..|a + b| - 1] == a + b[..|b| - 1];
    }
  }

  lemma {:induction false} ProcessStopped(items: seq<Item>, level: nat, o: Options)
    ensures Process(items, level, o, Stopped) == Stopped
  {
    if items != [] {
      ProcessStopped(items[..|items| - 1], level, o);
    }
  }

  /** Without includes the level does not matter, and a duplicate is never forgiven. */
  lemma {:induction false} ProcessFlat(items: seq<Item>, o: Options, lines: seq<Line>, seen: set<string>, dup: bool)
    requires NoIncludes(items)
    ensures var x, y := Process(items, 1, o, Going(lines, seen, false)), Process(items, 0, o, Going(lines, seen, dup));
            && x.Stopped? == y.Stopped?
            && (x.Going? ==> x.lines == y.lines && x.seen == y.seen && y.duplicate == (dup || x.duplicate))
  {
    if items != [] {
      ProcessFlat(items[..|items| - 1], o, lines, seen, dup);
    }
  }

  lemma {:induction false} DuplicateStays(items: seq<Item>, level: nat, o: Options, st: FileState)
    requires st.Going? && st.duplicate
    ensures !Accepted(Process(items, level, o, st))
    ensures var r := Process(items, level, o, st); r.Going? ==> r.duplicate
  {
    if items != [] {
      DuplicateStays(items[..|items| - 1], level, o, st);
    }
  }

  ghost predicate SameOutcome(x: FileState, y: FileState) {
    && Accepted(x) == Accepted(y)
    && (Accepted(x) ==> x == y)
  }

  /** One-level @include behaves exactly like putting the included lines in its place. */
  lemma {:induction false} IncludeIsInlining(items: seq<Item>, o: Options)
    requires IncludesFlat(items)
    ensures SameOutcome(Process(items, 0, o, Going([], {}, false)), Process(Inlined(items), 0, o, Going([], {}, false)))
  {
    var start := Going([], {}, false);
    if items != [] {
      var n := |items| - 1;
      var last, before := items[n], items[..n];
      IncludeIsInlining(before, o);
      var x, y := Process(before, 0, o, start), Process(Inlined(before), 0, o, start);
      var more := if last.Include? then last.items else [last];
      ProcessJoin(Inlined(before), more, 0, o, start);
      InlineStep(last, more, o, x, y);
    }
  }

  lemma {:induction false} InlineStep(last: Item, more: seq<Item>, o: Options, x: FileState, y: FileState)
    requires SameOutcome(x, y)
    requires more == if last.Include? then last.items else [last]
    requires last.Include? ==> NoIncludes(last.items)
    ensures SameOutcome(Step(last, 0, o, x), Process(more, 0, o, y))
  {
    if !Accepted(y) {
      if y.Going? {
        DuplicateStays(more, 0, o, y);
      } else {
        ProcessStopped(more, 0, o);
      }
    } else if last.Include? {
      ProcessFlat(last.items, o, y.lines, y.seen, false);
    } else {
      assert more[..0] == [];
      assert Process(more, 0, o, y) == Step(last, 0, o, y);
    }
  }

  /** Not acceptable, or in need of too many labels. */
  ghost predicate Refused(st: FileState) { st.Stopped? || |LabelsOf(st.lines)| > LABELS_MAX }

  lemma {:induction false} LabelsPrefix(a: seq<Line>, b: seq<Line>)
    requires a <= b
    ensures LabelsOf(a) <= LabelsOf(b) && |LabelsOf(a)| <= |LabelsOf(b)|
    decreases |b|
  {
    if |a| < |b| {
      assert b[..|b| - 1][..|a|] == b[..|a|];
      LabelsPrefix(a, b[..|b| - 1]);
    } else {
      assert a == b;
    }
    SubsetSize(LabelsOf(a), LabelsOf(b));
  }

  /** Reading on only adds lines. */
  lemma {:induction false} StepExtends(item: Item, level: nat, o: Options, st: FileState)
    ensures Step(item, level, o, st).Going? ==> st.Going? && st.lines <= Step(item, level, o, st).lines
    decreases item, 1
  {
    if st.Going? && item.Include? && level == 0 {
      ProcessExtends(item.items, level + 1, o, Going(st.lines, st.seen, false));
    }
  }

  lemma {:induction false} ProcessExtends(items: seq<Item>, level: nat, o: Options, st: FileState)
    ensures Process(items, level, o, st).Going? ==> st.Going? && st.lines <= Process(items, level, o, st).lines
    decreases items, 0
  {
    if items != [] {
      var last := items[|items| - 1];
      assert last in items;
      ProcessExtends(items[..|items| - 1], level, o, st);
      StepExtends(last, level, o, Process(items[..|items| - 1], level, o, st));
    }
  }

  lemma {:induction false} ProcessPrefix(items: seq<Item>, k: nat, level: nat, o: Options, st: FileState)
    requires k < |items|
    ensures Process(items[..k + 1], level, o, st) == Step(items[k], level, o, Process(items[..k], level, o, st))
    ensures Process(items[..k + 1], level, o, st).Stopped? ==> Process(items, level, o, st).Stopped?
  {
    assert items[..k + 1][..k] == items[..k];
    ProcessJoin(items[..k + 1], items[k + 1..], level, o, st);
    assert items[..k + 1] + items[k + 1..] == items;
    ProcessStopped(items[k + 1..], level, o);
  }

  /** Once refused, always refused. */
  lemma {:induction false} RefusedStays(items: seq<Item>, k: nat, level: nat, o: Options, st: FileState)
    requires k < |items| && Refused(Process(items[..k + 1], level, o, st))
    ensures Refused(Process(items, level, o, st))
  {
    hide Step, Process, LabelsOf;
    ProcessPrefix(items, k, level, o, st);
    var now, all := Process(items[..k + 1], level, o, st), Process(items, level, o, st);
    if all.Going? {
      ProcessJoin(items[..k + 1], items[k + 1..], level, o, st);
      assert items[..k + 1] + items[k + 1..] == items;
      ProcessExtends(items[k + 1..], level, o, now);
      LabelsPrefix(now.lines, all.lines);
    }
  }

  // ----- Files without duplicates -----

  ghost predicate NamesSeen(st: FileState) {
    st.Going? ==> forall i :: 0 <= i < |st.lines| ==> st.lines[i].name in st.seen
  }

  ghost predicate DistinctNames(lines: seq<Line>) {
    forall i, j :: 0 <= i < j < |lines| ==> lines[i].name != lines[j].name
  }

  ghost predicate Tidy(st: FileState) { Accepted(st) ==> DistinctNames(st.lines) }

  lemma {:induction false} StepTidy(item: Item, level: nat, o: Options, st: FileState)
    requires NamesSeen(st) && Tidy(st) && !o.allowDuplicates
    ensures NamesSeen(Step(item, level, o, st)) && Tidy(Step(item, level, o, st))
    decreases item, 1
  {
    hide Process;
    if st.Going? && item.Include? && level == 0 {
      var start := Going(st.lines, st.seen, false);
      if st.duplicate {
        SeenProcess(item.items, level + 1, o, start);
      } else {
        ProcessTidy(item.items, level + 1, o, start);
      }
    }
  }

  lemma {:induction false} ProcessTidy(items: seq<Item>, level: nat, o: Options, st: FileState)
    requires NamesSeen(st) && Tidy(st) && !o.allowDuplicates
    ensures NamesSeen(Process(items, level, o, st)) && Tidy(Process(items, level, o, st))
    decreases items, 0
  {
    hide Step, NamesSeen, Tidy;
    if items != [] {
      var last := items[|items| - 1];
      assert last in items;
      ProcessTidy(items[..|items| - 1], level, o, st);
      StepTidy(last, level, o, Process(items[..|items| - 1], level, o, st));
    }
  }

  lemma {:induction false} SeenStep(item: Item, level: nat, o: Options, st: FileState)
    requires NamesSeen(st)
    ensures NamesSeen(Step(item, level, o, st))
    decreases item, 1
  {
    hide Process;
    if st.Going? && item.Include? && level == 0 {
      SeenProcess(item.items, level + 1, o, Going(st.lines, st.seen, false));
    }
  }

  lemma {:induction false} SeenProcess(items: seq<Item>, level: nat, o: Options, st: FileState)
    requires NamesSeen(st)
    ensures NamesSeen(Process(items, level, o, st))
    decreases items, 0
  {
    hide Step, NamesSeen;
    if items != [] {
      var last := items[|items| - 1];
      assert last in items;
      SeenProcess(items[..|items| - 1], level, o, st);
      SeenStep(last, level, o, Process(items[..|items| - 1], level, o, st));
    }
  }

  /** A file that is accepted while duplicates are forbidden has distinct filters, unless two names of its lines stand
      for one syscall. */
  lemma {:induction false} AcceptedIsDistinct(items: seq<Item>, o: Options)
    requires !o.allowDuplicates && Accepted(Process(items, 0, o, Going([], {}, false)))
    requires var lines := Process(items, 0, o, Going([], {}, false)).lines;
             forall i, j :: 0 <= i < j < |lines| && lines[i].name != lines[j].name ==> lines[i].nr != lines[j].nr
    ensures DistinctFilters(Process(items, 0, o, Going([], {}, false)).lines)
  {
    hide Process;
    ProcessTidy(items, 0, o, Going([], {}, false));
  }

  // ----- The same reading, without a state -----

  /** Reading gives up at this item: it is malformed, or names an unknown syscall outside a logging run, or names a
      known one with a return clause that compile_errno refuses. */
  predicate Fatal(item: Item, o: Options) {
    match item
    case Malformed => true
    case Include(_) => false
    case PolicyItem(name, body) =>
      if 0 <= o.lookup(name) < 0x1_0000_0000 then
        match body
        case AlwaysAllow => false
        case AlwaysReturn(ret) => ret == ReturnErrno(-1) || (ret == ReturnDefault && o.action == RetLog)
        case Conditional(_, None) => false
        case Conditional(_, Some(ret)) => ret == ReturnErrno(-1) || (ret == ReturnDefault && o.action == RetLog)
      else
        !o.allowLogging
  }

  function LineOf(item: Item, o: Options): seq<Line> {
    if item.PolicyItem? && 0 <= o.lookup(item.name) < 0x1_0000_0000
    then [Line(item.name, o.lookup(item.name), item.body)] else []
  }

  /** The policy lines of a file whose syscalls exist, in their order. */
  function Wanted(items: seq<Item>, o: Options): seq<Line> {
    if items == [] then [] else LineOf(items[0], o) + Wanted(items[1..], o)
  }

  /** Two lines are about one syscall name. */
  ghost predicate Repeats(lines: seq<Line>) {
    exists i, j :: 0 <= i < j < |lines| && lines[i].name == lines[j].name
  }

  lemma {:induction false} WantedJoin(a: seq<Item>, b: seq<Item>, o: Options)
    ensures Wanted(a + b, o) == Wanted(a, o) + Wanted(b, o)
  {
    hide LineOf;
    if a == [] {
      assert a + b == b;
    } else {
      WantedJoin(a[1..], b, o);
      assert (a + b)[1..] == a[1..] + b;
    }
  }

  lemma {:induction false} WantedOne(item: Item, o: Options)
    ensures Wanted([item], o) == LineOf(item, o)
  {
    hide LineOf;
    assert [item][1..] == [];
    assert Wanted([item][1..], o) == [];
  }

  /** The three laws that make `Wanted` what it is: a file is read item by item, a line that names a known syscall
      gives its name, number and body, and any other item gives nothing. */
  lemma {:induction false} WantedIs(a: seq<Item>, b: seq<Item>, item: Item, o: Options)
    ensures Wanted(a + b, o) == Wanted(a, o) + Wanted(b, o)
    ensures item.PolicyItem? && 0 <= o.lookup(item.name) < 0x1_0000_0000 ==>
              Wanted([item], o) == [Line(item.name, o.lookup(item.name), item.body)]
    ensures !(item.PolicyItem? && 0 <= o.lookup(item.name) < 0x1_0000_0000) ==> Wanted([item], o) == []
  {
    WantedJoin(a, b, o);
    WantedOne(item, o);
  }

  /** The three laws that make `Inlined` what it is. */
  lemma {:induction false} InlinedIs(a: seq<Item>, b: seq<Item>, item: Item)
    ensures Inlined(a + b) == Inlined(a) + Inlined(b)
    ensures Inlined([item]) == if item.Include? then item.items else [item]
    decreases |b|
  {
    assert [item][..0] == [];
    assert Inlined([item][..0]) == [];
    if b == [] {
      assert a + b == a;
    } else {
      InlinedIs(a, b[..|b| - 1], item);
      assert (a + b)[..|a + b| - 1] == a + b[..|b| - 1];
    }
  }

  lemma {:induction false} FatalStep(item: Item, o: Options, st: FileState)
    requires !item.Include? && st.Going?
    ensures Step(item, 0, o, st).Stopped? <==> Fatal(item, o)
    ensures !Fatal(item, o) && Wanted([item], o) == [] ==> Step(item, 0, o, st) == st
    ensures !Fatal(item, o) && Wanted([item], o) != [] ==>
              && item.PolicyItem?
              && Step(item, 0, o, st) ==
                 Going(st.lines + Wanted([item], o), st.seen + {item.name},
                       st.duplicate || (item.name in st.seen && !o.allowDuplicates))
    ensures Wanted([item], o) != [] ==> item.PolicyItem? && |Wanted([item], o)| == 1 && Wanted([item], o)[0].name == item.name
  {
    WantedIs([], [], item, o);
  }

  lemma RepeatsSnoc(lines: seq<Line>, line: Line)
    ensures Repeats(lines + [line]) <==> Repeats(lines) || exists i :: 0 <= i < |lines| && lines[i].name == line.name
  {
    var all := lines + [line];
    if i, j :| 0 <= i < j < |all| && all[i].name == all[j].name {
      if j < |lines| {
        assert lines[i].name == lines[j].name;
      } else {
        assert lines[i].name == line.name;
      }
    }
    if i, j :| 0 <= i < j < |lines| && lines[i].name == lines[j].name {
      assert all[i].name == all[j].name;
    }
    if i :| 0 <= i < |lines| && lines[i].name == line.name {
      assert all[i].name == all[|lines|].name;
    }
  }

  /** The state after a file without includes. */
  ghost predicate ReadAs(st: FileState, lines: seq<Line>, o: Options) {
    && st.Going? && st.lines == lines
    && (forall name :: name in st.seen <==> exists i :: 0 <= i < |lines| && lines[i].name == name)
    && (st.duplicate <==> !o.allowDuplicates && Repeats(lines))
  }

  ghost predicate NoFatal(items: seq<Item>, o: Options) {
    forall i :: 0 <= i < |items| ==> !Fatal(items[i], o)
  }

  lemma {:induction false} ReadOn(st: FileState, lines: seq<Line>, item: Item, o: Options)
    requires ReadAs(st, lines, o) && !item.Include? && !Fatal(item, o)
    ensures ReadAs(Step(item, 0, o, st), lines + Wanted([item], o), o)
  {
    hide Fatal, Wanted, Step, Repeats;
    FatalStep(item, o, st);
    var more := Wanted([item], o);
    if more == [] {
      assert lines + more == lines;
    } else {
      var all := lines + [more[0]];
      assert more == [more[0]];
      RepeatsSnoc(lines, more[0]);
      forall name
        ensures name in st.seen + {item.name} <==> exists i :: 0 <= i < |all| && all[i].name == name
      {
        if name in st.seen {
          var i :| 0 <= i < |lines| && lines[i].name == name;
          assert all[i].name == name;
        }
        assert all[|lines|].name == item.name;
        if i :| 0 <= i < |all| && all[i].name == name {
          assert i < |lines| ==> lines[i].name == name;
        }
      }
    }
  }

  lemma {:induction false} FlatReading(items: seq<Item>, o: Options)
    requires NoIncludes(items)
    ensures Process(items, 0, o, Going([], {}, false)).Going? <==> NoFatal(items, o)
    ensures NoFatal(items, o) ==> ReadAs(Process(items, 0, o, Going([], {}, false)), Wanted(items, o), o)
  {
    hide Fatal, Step, ReadAs, Wanted, Process;
    var start := Going([], {}, false);
    if items == [] {
      EmptyReading(o);
    } else {
      var n := |items| - 1;
      var last, before := items[n], items[..n];
      assert forall i :: 0 <= i < n ==> items[i] == before[i];
      FlatReading(before, o);
      WantedJoin(before, [last], o);
      assert before + [last] == items == items[..n + 1];
      ProcessPrefix(items, n, 0, o, start);
      var st := Process(before, 0, o, start);
      if st.Going? {
        FatalStep(last, o, st);
        if !Fatal(last, o) {
          ReadOn(st, Wanted(before, o), last, o);
        }
      } else {
        StoppedStep(last, o);
      }
    }
  }

  lemma {:induction false} StoppedStep(item: Item, o: Options)
    ensures Step(item, 0, o, Stopped) == Stopped
  {
  }

  lemma {:induction false} EmptyReading(o: Options)
    ensures Process([], 0, o, Going([], {}, false)) == Going([], {}, false)
    ensures ReadAs(Going([], {}, false), Wanted([], o), o)
  {
  }

  /** An include inside an included file stops the reading. */
  lemma {:induction false} NestedStops(items: seq<Item>, o: Options, st: FileState)
    requires !NoIncludes(items)
    ensures Process(items, 1, o, st).Stopped?
  {
    hide Process;
    var k :| 0 <= k < |items| && items[k].Include?;
    ProcessPrefix(items, k, 1, o, st);
  }

  lemma {:induction false} AcceptedIsFlat(items: seq<Item>, o: Options)
    requires Accepted(Process(items, 0, o, Going([], {}, false)))
    ensures IncludesFlat(items)
  {
    hide Process;
    var st := Going([], {}, false);
    forall k | 0 <= k < |items| && items[k].Include?
      ensures NoIncludes(items[k].items)
    {
      ProcessPrefix(items, k, 0, o, st);
      var now := Process(items[..k], 0, o, st);
      if !NoIncludes(items[k].items) && now.Going? {
        NestedStops(items[k].items, o, Going(now.lines, now.seen, false));
      }
    }
  }

  lemma {:induction false} InlinedHasNone(items: seq<Item>)
    requires IncludesFlat(items)
    ensures NoIncludes(Inlined(items))
  {
    if items != [] {
      var before := items[..|items| - 1];
      assert forall i :: 0 <= i < |before| ==> before[i] == items[i];
      InlinedHasNone(before);
    }
  }

  lemma RepeatsIs(lines: seq<Line>)
    ensures !Repeats(lines) <==> forall i, j :: 0 <= i < j < |lines| ==> lines[i].name != lines[j].name
  {
  }

  lemma FlatInside(items: seq<Item>)
    ensures IncludesFlat(items) <==>
            forall i, j :: 0 <= i < |items| && items[i].Include? && 0 <= j < |items[i].items| ==>
              !items[i].items[j].Include?
  {
    if IncludesFlat(items) {
      forall i, j | 0 <= i < |items| && items[i].Include? && 0 <= j < |items[i].items|
        ensures !items[i].items[j].Include?
      {
        assert NoIncludes(items[i].items);
      }
    }
  }

  /** What compile_file makes of a policy file, whatever its state goes through: it is accepted exactly when no included
      file includes another one, no item, with the included ones in place, is one to give up at, and no syscall name
      comes twice unless that is allowed.  Its lines are then the lines of the file about existing syscalls, in order. */
  lemma {:induction false} ReadingIs(items: seq<Item>, o: Options)
    ensures var st, lines := Process(items, 0, o, Going([], {}, false)), Wanted(Inlined(items), o);
            && (Accepted(st) <==>
                  && IncludesFlat(items)
                  && NoFatal(Inlined(items), o)
                  && (o.allowDuplicates || forall i, j :: 0 <= i < j < |lines| ==> lines[i].name != lines[j].name))
            && (Accepted(st) ==> st.lines == lines)
  {
    hide Process, Inlined, Fatal, Wanted, Step, Repeats;
    if IncludesFlat(items) {
      InlinedHasNone(items);
      IncludeIsInlining(items, o);
      FlatReading(Inlined(items), o);
      var lines := Wanted(Inlined(items), o);
      RepeatsIs(lines);
      assert Accepted(Process(Inlined(items), 0, o, Going([], {}, false))) <==>
             NoFatal(Inlined(items), o) && (o.allowDuplicates || !Repeats(lines));
    } else if Accepted(Process(items, 0, o, Going([], {}, false))) {
      AcceptedIsFlat(items, o);
    }
  }

  /** Where reading a file without includes gives up, item by item. */
  lemma {:induction false} StopsIff(items: seq<Item>, o: Options)
    requires forall i :: 0 <= i < |items| ==> !items[i].Include?
    ensures Process(items, 0, o, Going([], {}, false)).Stopped? <==>
            exists i :: 0 <= i < |items| &&
              match items[i]
              case Malformed => true
              case Include(_) => false
              case PolicyItem(name, AlwaysAllow) => !(0 <= o.lookup(name) <= 0xffff_ffff) && !o.allowLogging
              case PolicyItem(name, AlwaysReturn(ReturnErrno(n))) =>
                if 0 <= o.lookup(name) <= 0xffff_ffff then n == -1 else !o.allowLogging
              case PolicyItem(name, AlwaysReturn(ReturnDefault)) =>
                if 0 <= o.lookup(name) <= 0xffff_ffff then o.action == RetLog else !o.allowLogging
              case PolicyItem(name, Conditional(_, None)) => !(0 <= o.lookup(name) <= 0xffff_ffff) && !o.allowLogging
              case PolicyItem(name, Conditional(_, Some(ReturnErrno(n)))) =>
                if 0 <= o.lookup(name) <= 0xffff_ffff then n == -1 else !o.allowLogging
              case PolicyItem(name, Conditional(_, Some(ReturnDefault))) =>
                if 0 <= o.lookup(name) <= 0xffff_ffff then o.action == RetLog else !o.allowLogging
  {
    hide Process, ReadAs, Wanted;
    FlatReading(items, o);
    if Process(items, 0, o, Going([], {}, false)).Stopped? {
      var i :| 0 <= i < |items| && Fatal(items[i], o);
      assert items[i] == items[i];
    }
  }

  /** A file without includes that is read to the end has given the lines of existing syscalls in order; their names are
      the ones seen, and a duplicate was noted exactly when a name came twice and that is not allowed. */
  lemma {:induction false} FlatReadingIs(items: seq<Item>, o: Options)
    requires forall i :: 0 <= i < |items| ==> !items[i].Include?
    ensures var st := Process(items, 0, o, Going([], {}, false));
            st.Going? ==>
              && st.lines == Wanted(items, o)
              && (forall name :: name in st.seen <==> exists i :: 0 <= i < |st.lines| && st.lines[i].name == name)
              && (st.duplicate <==>
                    !o.allowDuplicates
                    && exists i, j :: 0 <= i < j < |st.lines| && st.lines[i].name == st.lines[j].name)
  {
    hide Process, Wanted, Fatal;
    FlatReading(items, o);
  }
}
