/** The labels that a policy needs, when they can be resolved, and how long its filter is: all
    read off the lines of the policy, without compiling them. */
module LabelUse {
  import opened Bits
  import opened Machine
  import opened Filters
  import opened Labels
  import opened Compare
  import opened SyscallFilter
  import opened Sets

  // ----- What the lines need -----

  function GroupLabels(nr: nat, group: nat, n: nat): set<Name>
    decreases n
  {
    if n == 0 then {} else {GroupEnd(nr, group)} + GroupLabels(nr, group + 1, n - 1)
  }

  function LineLabels(line: Line): set<Name> {
    match line.body
    case AlwaysAllow => {}
    case AlwaysReturn(_) => {Entry(line.name)}
    case Conditional(dnf, _) => {Entry(line.name), Success(line.nr)} + GroupLabels(line.nr, 0, |dnf|)
  }

  function LabelsOf(lines: seq<Line>): set<Name> {
    if lines == [] then {} else LabelsOf(lines[..|lines| - 1]) + LineLabels(lines[|lines| - 1])
  }

  /** How many labels a line takes. */
  function LineLabelCount(line: Line): nat {
    match line.body
    case AlwaysAllow => 0
    case AlwaysReturn(_) => 1
    case Conditional(dnf, _) => 2 + |dnf|
  }

  function LabelCount(lines: seq<Line>): nat {
    if lines == [] then 0 else LabelCount(lines[..|lines| - 1]) + LineLabelCount(lines[|lines| - 1])
  }

  /** Two lines can be compiled beside each other: two filters have different names, and two
      conditional ones different numbers. */
  predicate Separate(a: Line, b: Line) {
    && (!a.body.AlwaysAllow? && !b.body.AlwaysAllow? ==> a.name != b.name)
    && (a.body.Conditional? && b.body.Conditional? ==> a.nr != b.nr)
  }

  ghost predicate DistinctFilters(lines: seq<Line>) {
    forall i, j :: 0 <= i < j < |lines| ==> Separate(lines[i], lines[j])
  }

  // ----- Labels placed once -----

  ghost predicate Once(s: Syms) {
    forall i, j :: 0 <= i < j < |s| && s[i].Mark? && s[j].Mark? ==> s[i].name != s[j].name
  }

  ghost predicate NoCommonMarks(s: Syms, t: Syms) {
    forall n: Name :: Mark(n) in s ==> Mark(n) !in t
  }

  lemma OnceJoin(s: Syms, t: Syms)
    ensures Once(s + t) <==> Once(s) && Once(t) && NoCommonMarks(s, t)
  {
    var u := s + t;
    if Once(u) {
      forall i, j | 0 <= i < j < |s| && s[i].Mark? && s[j].Mark?
        ensures s[i].name != s[j].name
      {
        assert u[i] == s[i] && u[j] == s[j];
      }
      forall i, j | 0 <= i < j < |t| && t[i].Mark? && t[j].Mark?
        ensures t[i].name != t[j].name
      {
        assert u[|s| + i] == t[i] && u[|s| + j] == t[j];
      }
      forall n: Name | Mark(n) in s
        ensures Mark(n) !in t
      {
        var i :| 0 <= i < |s| && s[i] == Mark(n);
        forall j | 0 <= j < |t|
          ensures t[j] != Mark(n)
        {
          assert u[i] == Mark(n) && u[|s| + j] == t[j];
        }
      }
    }
    if Once(s) && Once(t) && NoCommonMarks(s, t) {
      forall i, j | 0 <= i < j < |u| && u[i].Mark? && u[j].Mark?
        ensures u[i].name != u[j].name
      {
        if i < |s| <= j {
          assert Mark(u[i].name) in s && Mark(u[j].name) in t;
        } else if j < |s| {
          assert u[i] == s[i] && u[j] == s[j];
        } else {
          assert u[i] == t[i - |s|] && u[j] == t[j - |s|];
        }
      }
    }
  }

  lemma NoMarksOnce(s: Syms)
    requires NoMarks(s)
    ensures Once(s) && forall t: Syms :: NoCommonMarks(s, t) && NoCommonMarks(t, s)
  {
    assert forall i :: 0 <= i < |s| ==> s[i] in s;
  }

  // ----- Every jump leads somewhere -----

  /** Every jump's label lies later, or in what follows. */
  ghost predicate Led(s: Syms, follows: Syms) {
    forall i :: 0 <= i < |s| && s[i].Jump? ==> Mark(s[i].name) in s[i..] || Mark(s[i].name) in follows
  }

  lemma ResolvableParts(s: Syms)
    ensures Resolvable(s) <==> Once(s) && Led(s, [])
  {
    forall i | 0 <= i < |s| && s[i].Jump?
      ensures Later(s, i) <==> Mark(s[i].name) in s[i..]
    {
      if Mark(s[i].name) in s[i..] {
        var k :| 0 <= k < |s[i..]| && s[i..][k] == Mark(s[i].name);
        assert s[i + k] == Mark(s[i].name) && k != 0;
      }
      if Later(s, i) {
        var j :| i < j < |s| && s[j] == Mark(s[i].name);
        assert s[i..][j - i] == s[j];
      }
    }
  }

  lemma LedJoin(s: Syms, t: Syms, follows: Syms)
    requires Led(s, t + follows) && Led(t, follows)
    ensures Led(s + t, follows)
  {
    var u := s + t;
    forall i | 0 <= i < |u| && u[i].Jump?
      ensures Mark(u[i].name) in u[i..] || Mark(u[i].name) in follows
    {
      if i < |s| {
        assert u[i..] == s[i..] + t;
        assert Mark(s[i].name) in s[i..] || Mark(s[i].name) in t + follows;
      } else {
        assert u[i..] == t[i - |s|..];
      }
    }
  }

  lemma LedMore(s: Syms, a: Syms, b: Syms)
    requires Led(s, a) && forall x :: x in a ==> x in b
    ensures Led(s, b)
  {
  }

  lemma NoJumpsLed(s: Syms, follows: Syms)
    requires forall x :: x in s ==> !x.Jump?
    ensures Led(s, follows)
  {
    assert forall i :: 0 <= i < |s| ==> s[i] in s;
  }

  // ----- Groups -----

  lemma {:induction false} GroupLabelsAre(nr: nat, group: nat, n: nat, name: Name)
    ensures name in GroupLabels(nr, group, n) <==> name.GroupEnd? && name.nr == nr && group <= name.group < group + n
    decreases n
  {
    if n > 0 {
      GroupLabelsAre(nr, group + 1, n - 1, name);
    }
  }

  lemma {:induction false} GroupLabelsCount(nr: nat, group: nat, n: nat)
    ensures |GroupLabels(nr, group, n)| == n
    decreases n
  {
    if n > 0 {
      GroupLabelsCount(nr, group + 1, n - 1);
      GroupLabelsAre(nr, group + 1, n - 1, GroupEnd(nr, group));
    }
  }

  lemma {:induction false} AtomsJumps(nr: nat, group: nat, atoms: seq<AtomExpr>)
    ensures forall x :: x in AtomsSyms(nr, group, atoms) && x.Jump? ==> x.name == GroupEnd(nr, group)
  {
    if atoms != [] {
      AtomsJumps(nr, group, atoms[1..]);
    }
  }

  /** What the groups of a line place, each once, and where their jumps go. */
  lemma {:induction false} GroupsPlace(nr: nat, group: nat, dnf: Dnf)
    ensures forall name :: Mark(name) in GroupsSyms(nr, group, dnf) <==> name in GroupLabels(nr, group, |dnf|)
    ensures Once(GroupsSyms(nr, group, dnf)) && Led(GroupsSyms(nr, group, dnf), SuccessSyms(nr))
    decreases |dnf|
  {
    hide Once, Led, AtomsSyms;
    if dnf == [] {
      NoMarksOnce([]);
      NoJumpsLed([], SuccessSyms(nr));
    } else {
      var atoms, tail, rest := AtomsSyms(nr, group, dnf[0]), GroupTail(nr, group), GroupsSyms(nr, group + 1, dnf[1..]);
      GroupsPlace(nr, group + 1, dnf[1..]);
      GroupHead(nr, group, dnf[0]);
      GroupLabelsAre(nr, group + 1, |dnf| - 1, GroupEnd(nr, group));
      AtomsNoMarks(nr, group, dnf[0]);
      assert NoCommonMarks(atoms + tail, rest);
      OnceJoin(atoms + tail, rest);
      LedMore(atoms + tail, SuccessSyms(nr), rest + SuccessSyms(nr));
      LedJoin(atoms + tail, rest, SuccessSyms(nr));
      assert GroupsSyms(nr, group, dnf) == (atoms + tail) + rest;
    }
  }

  lemma {:induction false} GroupHead(nr: nat, group: nat, atoms: seq<AtomExpr>)
    ensures var s := AtomsSyms(nr, group, atoms) + GroupTail(nr, group); Once(s) && Led(s, SuccessSyms(nr))
  {
    hide AtomsSyms;
    var body, tail := AtomsSyms(nr, group, atoms), GroupTail(nr, group);
    AtomsNoMarks(nr, group, atoms);
    AtomsJumps(nr, group, atoms);
    NoMarksOnce(body);
    OnceJoin(body, tail);
    assert forall i :: 0 <= i < |body| ==> body[i] in body;
    assert Mark(GroupEnd(nr, group)) in tail + SuccessSyms(nr) && Mark(Success(nr)) in SuccessSyms(nr);
    LedJoin(body, tail, SuccessSyms(nr));
  }

  // ----- Lines -----

  lemma LinePlaces(line: Line, action: BlockAction)
    ensures forall name :: Mark(name) in LineSyms(line, action) <==> name in LineLabels(line)
    ensures Once(LineSyms(line, action)) && Led(LineSyms(line, action), [])
  {
    hide GroupsSyms, GroupLabels;
    match line.body
    case AlwaysAllow =>
    case AlwaysReturn(_) =>
    case Conditional(dnf, clause) =>
      var entry: Syms, groups := [Mark(Entry(line.name))], GroupsSyms(line.nr, 0, dnf);
      var no: Syms, success := [Plain(Return(ClauseAction(clause, action)))], SuccessSyms(line.nr);
      GroupsPlace(line.nr, 0, dnf);
      GroupsMarks(line.nr, 0, dnf);
      ConditionalOnce(entry, groups, no, success);
      ConditionalLed(entry, groups, no, success);
      assert LineSyms(line, action) == entry + (groups + (no + success));
  }

  lemma ConditionalOnce(entry: Syms, groups: Syms, no: Syms, success: Syms)
    requires Once(entry) && Once(groups) && NoMarks(no) && Once(success)
    requires forall n :: Mark(n) in entry ==> n.Entry?
    requires forall n :: Mark(n) in groups ==> n.GroupEnd?
    requires forall n :: Mark(n) in success ==> n.Success?
    ensures Once(entry + (groups + (no + success)))
  {
    hide Once;
    NoMarksOnce(no);
    OnceJoin(no, success);
    assert forall n :: Mark(n) in no + success ==> n.Success?;
    OnceJoin(groups, no + success);
    OnceJoin(entry, groups + (no + success));
  }

  lemma ConditionalLed(entry: Syms, groups: Syms, no: Syms, success: Syms)
    requires forall x :: x in entry || x in no || x in success ==> !x.Jump?
    requires Led(groups, success)
    ensures Led(entry + (groups + (no + success)), [])
  {
    hide Led;
    NoJumpsLed(no + success, []);
    LedMore(groups, success, (no + success) + []);
    LedJoin(groups, no + success, []);
    NoJumpsLed(entry, (groups + (no + success)) + []);
    LedJoin(entry, groups + (no + success), []);
  }

  lemma SeparateIff(a: Line, b: Line)
    ensures Separate(a, b) <==> LineLabels(a) !! LineLabels(b)
  {
    hide GroupLabels;
    if a.body.Conditional? && b.body.Conditional? {
      forall name | name in LineLabels(a) && name in LineLabels(b)
        ensures !Separate(a, b)
      {
        GroupLabelsAre(a.nr, 0, |a.body.dnf|, name);
        GroupLabelsAre(b.nr, 0, |b.body.dnf|, name);
      }
      assert a.nr == b.nr ==> Success(a.nr) in LineLabels(a) && Success(a.nr) in LineLabels(b);
      assert a.name == b.name ==> Entry(a.name) in LineLabels(a) && Entry(a.name) in LineLabels(b);
    } else if !a.body.AlwaysAllow? && !b.body.AlwaysAllow? {
      assert a.name == b.name ==> Entry(a.name) in LineLabels(a) && Entry(a.name) in LineLabels(b);
      forall name | name in LineLabels(a) && name in LineLabels(b)
        ensures a.name == b.name
      {
        if a.body.Conditional? {
          GroupLabelsAre(a.nr, 0, |a.body.dnf|, name);
        }
        if b.body.Conditional? {
          GroupLabelsAre(b.nr, 0, |b.body.dnf|, name);
        }
      }
    }
  }

  lemma {:induction false} LabelsOfAt(lines: seq<Line>, name: Name)
    ensures name in LabelsOf(lines) <==> exists i :: 0 <= i < |lines| && name in LineLabels(lines[i])
  {
    hide LineLabels;
    if lines != [] {
      var n := |lines| - 1;
      LabelsOfAt(lines[..n], name);
      if name in LabelsOf(lines[..n]) {
        var i :| 0 <= i < n && name in LineLabels(lines[..n][i]);
        assert lines[i] == lines[..n][i];
      }
      if i :| 0 <= i < |lines| && name in LineLabels(lines[i]) {
        assert i < n ==> lines[..n][i] == lines[i];
      }
    }
  }

  /** The last line is separate from all others exactly when it needs none of their labels. */
  lemma DistinctStep(lines: seq<Line>)
    requires lines != []
    ensures var n := |lines| - 1;
            DistinctFilters(lines) <==> DistinctFilters(lines[..n]) && LabelsOf(lines[..n]) !! LineLabels(lines[n])
  {
    hide LineLabels, LabelsOf, Separate;
    var n := |lines| - 1;
    var before, last := lines[..n], lines[n];
    forall i | 0 <= i < n
      ensures before[i] == lines[i] && (Separate(lines[i], last) <==> LineLabels(lines[i]) !! LineLabels(last))
    {
      SeparateIff(lines[i], last);
    }
    forall name | name in LineLabels(last)
      ensures name in LabelsOf(before) <==> exists i :: 0 <= i < n && name in LineLabels(before[i])
    {
      LabelsOfAt(before, name);
    }
    if DistinctFilters(lines) {
      forall name | name in LineLabels(last)
        ensures name !in LabelsOf(before)
      {
        assert forall i :: 0 <= i < n ==> name !in LineLabels(before[i]);
      }
    }
    if DistinctFilters(before) && LabelsOf(before) !! LineLabels(last) {
      forall i | 0 <= i < n
        ensures Separate(lines[i], last)
      {
        forall name | name in LineLabels(last)
          ensures name !in LineLabels(before[i])
        {
          assert name !in LabelsOf(before);
        }
      }
    }
  }

  /** Distinct filters need as many labels as their lines add up to. */
  lemma {:induction false} LabelsCounted(lines: seq<Line>)
    ensures |LabelsOf(lines)| <= LabelCount(lines)
    ensures DistinctFilters(lines) ==> |LabelsOf(lines)| == LabelCount(lines)
  {
    hide LineLabels, LineLabelCount, DistinctFilters;
    if lines != [] {
      var n := |lines| - 1;
      LabelsCounted(lines[..n]);
      LineLabelsCounted(lines[n]);
      DistinctStep(lines);
      var a, b := LabelsOf(lines[..n]), LineLabels(lines[n]);
      UnionSize(a, b);
    }
  }

  lemma LineLabelsCounted(line: Line)
    ensures |LineLabels(line)| == LineLabelCount(line)
  {
    hide GroupLabels;
    if line.body.Conditional? {
      var groups := GroupLabels(line.nr, 0, |line.body.dnf|);
      GroupLabelsCount(line.nr, 0, |line.body.dnf|);
      GroupLabelsAre(line.nr, 0, |line.body.dnf|, Entry(line.name));
      GroupLabelsAre(line.nr, 0, |line.body.dnf|, Success(line.nr));
      assert {Entry(line.name), Success(line.nr)} !! groups;
    }
  }

  // ----- The whole filter -----

  lemma {:induction false} ArgsPlace(lines: seq<Line>, action: BlockAction)
    ensures forall name :: Mark(name) in ArgSyms(lines, action) <==> name in LabelsOf(lines)
    ensures Once(ArgSyms(lines, action)) <==> DistinctFilters(lines)
    ensures Led(ArgSyms(lines, action), [])
  {
    hide LineSyms, LineLabels, DistinctFilters, Once, Led;
    if lines == [] {
      NoMarksOnce([]);
      NoJumpsLed([], []);
      NoLinesDistinct();
    } else {
      var n := |lines| - 1;
      var before, last := ArgSyms(lines[..n], action), LineSyms(lines[n], action);
      ArgsPlace(lines[..n], action);
      LinePlaces(lines[n], action);
      DistinctStep(lines);
      OnceJoin(before, last);
      assert NoCommonMarks(before, last) <==> LabelsOf(lines[..n]) !! LineLabels(lines[n]) by {
        assert forall name :: name in LabelsOf(lines[..n]) <==> Mark(name) in before;
      }
      LedMore(before, [], last + []);
      LedJoin(before, last, []);
    }
  }

  lemma NoLinesDistinct()
    ensures DistinctFilters([])
  {
  }

  lemma {:induction false} RowsLed(lines: seq<Line>, follows: Syms)
    requires forall i :: 0 <= i < |lines| && !lines[i].body.AlwaysAllow? ==> Mark(Entry(lines[i].name)) in follows
    ensures Led(Rows(lines), follows)
  {
    hide Led;
    if lines == [] {
      NoJumpsLed([], follows);
    } else {
      var n := |lines| - 1;
      assert forall i :: 0 <= i < n ==> lines[..n][i] == lines[i];
      RowsLed(lines[..n], follows);
      RowLed(lines[n], follows);
      LedMore(Rows(lines[..n]), follows, RowSyms(lines[n]) + follows);
      LedJoin(Rows(lines[..n]), RowSyms(lines[n]), follows);
    }
  }

  lemma RowLed(line: Line, follows: Syms)
    requires !line.body.AlwaysAllow? ==> Mark(Entry(line.name)) in follows
    ensures Led(RowSyms(line), follows)
  {
  }

  lemma {:induction false} LogRowsPlain(logging: seq<U32>)
    ensures forall x :: x in LogRows(logging) ==> x.Plain?
  {
    if logging != [] {
      LogRowsPlain(logging[..|logging| - 1]);
    }
  }

  lemma {:induction false} EntryPlaced(lines: seq<Line>, i: nat)
    requires i < |lines| && !lines[i].body.AlwaysAllow?
    ensures Entry(lines[i].name) in LabelsOf(lines)
  {
    LabelsOfAt(lines, Entry(lines[i].name));
    assert Entry(lines[i].name) in LineLabels(lines[i]);
  }

  /** The labels of a filter can be resolved exactly when its lines are distinct: no two filters for one name, no
      two conditional ones for one number. */
  lemma ResolvableWhenDistinct(lines: seq<Line>, logging: seq<U32>, action: BlockAction, archNr: U32)
    ensures Resolvable(FilterSyms(lines, logging, action, archNr)) <==> DistinctFilters(lines)
  {
    hide Once, Led, Rows, ArgSyms, LogRows, Prologue, Resolvable, DistinctFilters;
    var start, rows := Prologue(archNr) + LogRows(logging), Rows(lines);
    var default: Syms, args := [Plain(Return(Fallback(action)))], ArgSyms(lines, action);
    assert FilterSyms(lines, logging, action, archNr) == start + (rows + (default + args));
    assert forall x :: x in start ==> x.Plain? by {
      ProloguePlain(archNr);
      LogRowsPlain(logging);
    }
    RowsNoMarks(lines);
    ArgsPlace(lines, action);
    FilterOnce(start, rows, default, args);
    forall i | 0 <= i < |lines| && !lines[i].body.AlwaysAllow?
      ensures Mark(Entry(lines[i].name)) in (default + args) + []
    {
      EntryPlaced(lines, i);
      assert Mark(Entry(lines[i].name)) in args;
    }
    RowsLed(lines, (default + args) + []);
    FilterLed(start, rows, default, args);
    ResolvableParts(start + (rows + (default + args)));
  }

  lemma ProloguePlain(archNr: U32)
    ensures forall x :: x in Prologue(archNr) ==> x.Plain?
  {
  }

  lemma FilterOnce(start: Syms, rows: Syms, default: Syms, args: Syms)
    requires NoMarks(rows) && forall x :: x in start || x in default ==> x.Plain?
    ensures Once(start + (rows + (default + args))) <==> Once(args)
  {
    hide Once;
    NoMarksOnce(start);
    NoMarksOnce(rows);
    NoMarksOnce(default);
    OnceJoin(default, args);
    OnceJoin(rows, default + args);
    OnceJoin(start, rows + (default + args));
  }

  lemma FilterLed(start: Syms, rows: Syms, default: Syms, args: Syms)
    requires forall x :: x in start || x in default ==> x.Plain?
    requires Led(rows, (default + args) + []) && Led(args, [])
    ensures Led(start + (rows + (default + args)), [])
  {
    hide Led;
    NoJumpsLed(default, args + []);
    LedJoin(default, args, []);
    LedJoin(rows, default + args, []);
    NoJumpsLed(start, (rows + (default + args)) + []);
    LedJoin(start, rows + (default + args), []);
  }

  // ----- The length -----

  function AtomsLength(atoms: seq<AtomExpr>): nat {
    if atoms == [] then 0 else ArgCompLen(atoms[0].op, atoms[0].value) + AtomsLength(atoms[1..])
  }

  function GroupsLength(dnf: Dnf): nat {
    if dnf == [] then 0 else AtomsLength(dnf[0]) + 2 + GroupsLength(dnf[1..])
  }

  /** Instructions of a line besides its row. */
  function LineLength(line: Line): nat {
    match line.body
    case AlwaysAllow => 0
    case AlwaysReturn(_) => 2
    case Conditional(dnf, _) => 4 + GroupsLength(dnf)
  }

  function LinesLength(lines: seq<Line>): nat {
    if lines == [] then 0 else LinesLength(lines[..|lines| - 1]) + 2 + LineLength(lines[|lines| - 1])
  }

  /** Architecture check, load, default, and two instructions for each syscall allowed for logging. */
  function FilterLength(lines: seq<Line>, logging: seq<U32>): nat { 5 + 2 * |logging| + LinesLength(lines) }

  lemma {:induction false} AtomsLengthIs(nr: nat, group: nat, atoms: seq<AtomExpr>)
    ensures |AtomsSyms(nr, group, atoms)| == AtomsLength(atoms)
  {
    if atoms != [] {
      AtomsLengthIs(nr, group, atoms[1..]);
      ArgCompLenExact(atoms[0].op, atoms[0].arg, atoms[0].value, 0);
    }
  }

  lemma {:induction false} GroupsLengthIs(nr: nat, group: nat, dnf: Dnf)
    ensures |GroupsSyms(nr, group, dnf)| == GroupsLength(dnf)
    decreases |dnf|
  {
    if dnf != [] {
      AtomsLengthIs(nr, group, dnf[0]);
      GroupsLengthIs(nr, group + 1, dnf[1..]);
    }
  }

  lemma LineLengthIs(line: Line, action: BlockAction)
    ensures |LineSyms(line, action)| == LineLength(line)
  {
    if line.body.Conditional? {
      GroupsLengthIs(line.nr, 0, line.body.dnf);
    }
  }

  lemma {:induction false} LinesLengthIs(lines: seq<Line>, action: BlockAction)
    ensures |Rows(lines)| + |ArgSyms(lines, action)| == LinesLength(lines)
  {
    if lines != [] {
      LinesLengthIs(lines[..|lines| - 1], action);
      LineLengthIs(lines[|lines| - 1], action);
    }
  }

  lemma {:induction false} LogRowsLength(logging: seq<U32>)
    ensures |LogRows(logging)| == 2 * |logging|
  {
    if logging != [] {
      LogRowsLength(logging[..|logging| - 1]);
    }
  }

  /** The length of the filter, before any of it is emitted. */
  lemma FilterLengthIs(lines: seq<Line>, logging: seq<U32>, action: BlockAction, archNr: U32)
    ensures |FilterSyms(lines, logging, action, archNr)| == FilterLength(lines, logging)
  {
    hide Rows, ArgSyms, LogRows;
    LinesLengthIs(lines, action);
    LogRowsLength(logging);
  }
}
