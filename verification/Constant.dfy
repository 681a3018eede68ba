/** Constant expressions of policy files: alternatives joined by `|`, complement `~`, parentheses.

    The parser works in place on a NUL-terminated buffer, cutting it into pieces.  Looking up a
    single constant (a name from a table or a number) is a parameter. */
module Constant {
  import opened Machine
  import opened Words

  type Lookup = string -> Option<bv64>

  /** What every lookup table and number syntax satisfies: a constant is not empty and uses none
      of the operator characters. */
  ghost predicate Plain(leaf: Lookup) {
    forall s: string :: leaf(s).Some? ==> s != "" && Word(s)
  }

  predicate Word(s: string) {
    forall i :: 0 <= i < |s| ==> s[i] != '|' && s[i] != '~' && s[i] != '(' && s[i] != ')' && s[i] != '\0'
  }

  // ---------------------------------------------------------------- the language

  datatype Term = Single(negate: bool, name: string) | Group(negate: bool, inner: Expr)

  /** A series of terms; the last one may be followed by a stray bar. */
  datatype Expr = Last(term: Term, stray: bool) | More(term: Term, rest: Expr)

  function PrintTerm(t: Term): (s: string)
    ensures s != "" || (t.Single? && t.name == "")
  {
    (if t.negate then "~" else "") +
    match t
    case Single(_, name) => name
    case Group(_, inner) => "(" + Print(inner) + ")"
  }

  function Print(e: Expr): string {
    match e
    case Last(t, stray) => PrintTerm(t) + if stray then "|" else ""
    case More(t, rest) => PrintTerm(t) + "|" + Print(rest)
  }

  /** Constants are known, and a stray bar follows a constant, never a parenthesis. */
  predicate WellFormed(leaf: Lookup, e: Expr) {
    WellFormedTerm(leaf, e.term)
    && match e
       case Last(t, stray) => stray ==> t.Single?
       case More(_, rest) => WellFormed(leaf, rest)
  }

  predicate WellFormedTerm(leaf: Lookup, t: Term) {
    match t
    case Single(_, name) => leaf(name).Some?
    case Group(_, inner) => WellFormed(leaf, inner)
  }

  function Or(a: bv64, b: bv64): bv64 { a | b }

  function Complement(negate: bool, v: bv64): bv64 { if negate then !v else v }

  function TermValue(leaf: Lookup, t: Term): bv64
    requires WellFormedTerm(leaf, t)
  {
    match t
    case Single(negate, name) => Complement(negate, leaf(name).value)
    case Group(negate, inner) => Complement(negate, Value(leaf, inner))
  }

  /** The value an expression denotes. */
  function Value(leaf: Lookup, e: Expr): bv64
    requires WellFormed(leaf, e)
  {
    match e
    case Last(t, _) => TermValue(leaf, t)
    case More(t, rest) => Or(TermValue(leaf, t), Value(leaf, rest))
  }

  // ---------------------------------------------------------------- cutting the text

  /** Characters before the first bar, or all of them. */
  function Bar(s: string): (n: nat)
    ensures n <= |s| && (n < |s| ==> s[n] == '|')
    ensures forall i :: 0 <= i < n ==> s[i] != '|'
  {
    if s == "" || s[0] == '|' then 0 else 1 + Bar(s[1..])
  }

  /** Where the parenthesis that closes `depth` open ones stands. */
  function Close(s: string, depth: nat): (n: Option<nat>)
    requires depth > 0
    ensures n.Some? ==> n.value < |s| && s[n.value] == ')'
  {
    if s == "" then None
    else if s[0] == ')' && depth == 1 then Some(0)
    else
      var d := if s[0] == '(' then depth + 1 else if s[0] == ')' then depth - 1 else depth;
      match Close(s[1..], d) case None => None case Some(n) => Some(n + 1)
  }

  /** The first term's sign, and the text after it. */
  function Unsigned(s: string): string { if s != "" && s[0] == '~' then s[1..] else s }

  /** The loop of the parser: the value of the rest of a series joined to what is known. */
  function Series(leaf: Lookup, s: string, value: bv64): Option<bv64>
    decreases |s|, 0
  {
    if s == "" then Some(value)
    else
      var negate := s[0] == '~';
      var t := Unsigned(s);
      if t != "" && t[0] == '(' then
        match Close(t[1..], 1)
        case None => None
        case Some(n) =>
          var after := t[n + 2..];
          match Parse(leaf, t[1..n + 1])
          case None => None
          case Some(v) =>
            if after == "" then Some(Or(value, Complement(negate, v)))
            else if after[0] != '|' || |after| == 1 then None
            else Series(leaf, after[1..], Or(value, Complement(negate, v)))
      else
        var n := Bar(t);
        match leaf(t[..n])
        case None => None
        case Some(v) => Series(leaf, if n == |t| then "" else t[n + 1..], Or(value, Complement(negate, v)))
  }

  /** The outcome of parsing: the empty text is an error. */
  function Parse(leaf: Lookup, s: string): Option<bv64>
    decreases |s|, 1
  {
    if s == "" then None else Series(leaf, s, 0)
  }

  // ---------------------------------------------------------------- every printed expression is parsed

  lemma {:induction false} BarAfterWord(w: string, u: string)
    requires Word(w) && (u == "" || u[0] == '|')
    ensures Bar(w + u) == |w|
  {
    if w == "" {
      assert w + u == u;
    } else {
      assert (w + u)[1..] == w[1..] + u;
      BarAfterWord(w[1..], u);
    }
  }

  function Shift(n: Option<nat>, d: nat): Option<nat> { if n.None? then None else Some(n.value + d) }

  predicate NoParens(s: string) { forall i :: 0 <= i < |s| ==> s[i] != '(' && s[i] != ')' }

  lemma {:induction false} CloseSkips(s: string, u: string, depth: nat)
    requires depth > 0 && NoParens(s)
    ensures Close(s + u, depth) == Shift(Close(u, depth), |s|)
  {
    if s == "" {
      assert s + u == u;
    } else {
      assert (s + u)[1..] == s[1..] + u;
      CloseSkips(s[1..], u, depth);
    }
  }

  lemma {:induction false} CloseOpens(u: string, depth: nat)
    requires depth > 0
    ensures Close("(" + u, depth) == Shift(Close(u, depth + 1), 1)
  {
    assert ("(" + u)[1..] == u;
  }

  lemma {:induction false} CloseShuts(u: string, depth: nat)
    requires depth > 0
    ensures Close(")" + u, depth) == if depth == 1 then Some(0) else Shift(Close(u, depth - 1), 1)
  {
    assert (")" + u)[1..] == u;
  }

  function Sign(negate: bool): string { if negate then "~" else "" }

  lemma KnownWord(leaf: Lookup, name: string)
    requires Plain(leaf) && leaf(name).Some?
    ensures name != "" && Word(name) && NoParens(name)
  {
    assert Word(name);
  }

  lemma {:induction false} GroupText(negate: bool, inner: Expr, u: string)
    ensures PrintTerm(Group(negate, inner)) + u == Sign(negate) + ("(" + (Print(inner) + (")" + u)))
    ensures |PrintTerm(Group(negate, inner))| == |Sign(negate)| + |Print(inner)| + 2
  {
    hide Print;
    var p := Print(inner);
    Regroup(Sign(negate), "(", p, ")", u);
  }

  lemma Regroup(a: string, b: string, c: string, d: string, u: string)
    ensures (a + ((b + c) + d)) + u == a + (b + (c + (d + u)))
  {
  }

  /** Printed text is balanced: the search for a closing parenthesis passes over it. */
  lemma {:induction false} CloseSkipsTerm(leaf: Lookup, t: Term, u: string, depth: nat)
    requires Plain(leaf) && depth > 0 && WellFormedTerm(leaf, t)
    ensures Close(PrintTerm(t) + u, depth) == Shift(Close(u, depth), |PrintTerm(t)|)
    decreases t, 0
  {
    hide Plain, Close, Print, WellFormed;
    match t
    case Single(negate, name) =>
      KnownWord(leaf, name);
      CloseSkips(PrintTerm(t), u, depth);
    case Group(negate, inner) =>
      hide PrintTerm;
      var rest := Print(inner) + (")" + u);
      GroupText(negate, inner, u);
      CloseSkips(Sign(negate), "(" + rest, depth);
      CloseOpens(rest, depth);
      CloseSkipsExpr(leaf, inner, ")" + u, depth + 1);
      CloseShuts(u, depth + 1);
  }

  /** What follows the first term of an expression. */
  function Tail(e: Expr): string {
    match e
    case Last(_, stray) => if stray then "|" else ""
    case More(_, rest) => "|" + Print(rest)
  }

  lemma {:induction false} PrintIsTermAndTail(e: Expr)
    ensures Print(e) == PrintTerm(e.term) + Tail(e)
    ensures Tail(e) == "" || Tail(e)[0] == '|'
    ensures e.More? ==> Tail(e)[1..] == Print(e.rest)
  {
  }

  lemma {:induction false} CloseSkipsExpr(leaf: Lookup, e: Expr, u: string, depth: nat)
    requires Plain(leaf) && depth > 0 && WellFormed(leaf, e)
    ensures Close(Print(e) + u, depth) == Shift(Close(u, depth), |Print(e)|)
    decreases e, 1
  {
    hide Plain, Close, Print, PrintTerm, WellFormedTerm;
    PrintIsTermAndTail(e);
    assert Print(e) + u == PrintTerm(e.term) + (Tail(e) + u);
    CloseSkipsTerm(leaf, e.term, Tail(e) + u, depth);
    match e
    case Last(_, _) =>
      CloseSkips(Tail(e), u, depth);
    case More(_, rest) =>
      assert Tail(e) + u == "|" + (Print(rest) + u);
      CloseSkips("|", Print(rest) + u, depth);
      CloseSkipsExpr(leaf, rest, u, depth);
  }

  /** One turn of the parser's loop on a text that starts with a constant. */
  lemma TurnSingle(leaf: Lookup, s: string, value: bv64, t: string)
    requires s != "" && t == Unsigned(s) && !(t != "" && t[0] == '(') && leaf(t[..Bar(t)]).Some?
    ensures Series(leaf, s, value)
         == Series(leaf, if Bar(t) == |t| then "" else t[Bar(t) + 1..],
                   Or(value, Complement(s[0] == '~', leaf(t[..Bar(t)]).value)))
  {
    hide Or, Complement, Close;
  }

  lemma UnsignedAfter(negate: bool, t: string)
    requires t != "" && t[0] != '~'
    ensures var s := Sign(negate) + t; s != "" && Unsigned(s) == t && (s[0] == '~' <==> negate)
  {
  }

  /** The parser's loop takes one printed constant. */
  lemma {:induction false} SeriesSingle(leaf: Lookup, negate: bool, name: string, u: string, value: bv64)
    requires Plain(leaf) && leaf(name).Some? && (u == "" || u[0] == '|')
    ensures Series(leaf, PrintTerm(Single(negate, name)) + u, value)
         == Series(leaf, if u == "" then "" else u[1..], Or(value, Complement(negate, leaf(name).value)))
  {
    hide Plain, Series, Or, Complement, Bar, Unsigned;
    KnownWord(leaf, name);
    var t := name + u;
    assert PrintTerm(Single(negate, name)) + u == Sign(negate) + t;
    UnsignedAfter(negate, t);
    BarAfterWord(name, u);
    assert t[..|name|] == name;
    assert u != "" ==> t[|name| + 1..] == u[1..];
    TurnSingle(leaf, Sign(negate) + t, value, t);
  }

  /** How the parser's loop goes on behind a parenthesis. */
  function AfterGroup(leaf: Lookup, parsed: Option<bv64>, negate: bool, value: bv64, after: string): Option<bv64> {
    if parsed.None? then None
    else if after == "" then Some(Or(value, Complement(negate, parsed.value)))
    else if after[0] != '|' || |after| == 1 then None
    else Series(leaf, after[1..], Or(value, Complement(negate, parsed.value)))
  }

  /** One turn of the parser's loop on a text that starts with a parenthesis. */
  lemma {:induction false} TurnGroup(leaf: Lookup, s: string, value: bv64, group: string, after: string)
    requires s != "" && Unsigned(s) == "(" + (group + (")" + after))
    requires Close(group + (")" + after), 1) == Some(|group|)
    ensures Series(leaf, s, value) == AfterGroup(leaf, Parse(leaf, group), s[0] == '~', value, after)
  {
    hide Or, Complement, Close, Bar, Parse, Unsigned;
    var t := Unsigned(s);
    assert t[1..] == group + (")" + after);
    assert t[1..|group| + 1] == group;
    assert t[|group| + 2..] == after;
  }

  /** The parser's loop takes one printed parenthesis, and wants more after a bar. */
  lemma {:induction false} SeriesGroup(leaf: Lookup, negate: bool, inner: Expr, u: string, value: bv64)
    requires Plain(leaf) && WellFormed(leaf, inner) && (u == "" || u[0] == '|')
    requires Parse(leaf, Print(inner)) == Some(Value(leaf, inner))
    ensures Series(leaf, PrintTerm(Group(negate, inner)) + u, value)
         == var joined := Or(value, Complement(negate, Value(leaf, inner)));
            if u == "" then Some(joined) else if |u| == 1 then None else Series(leaf, u[1..], joined)
  {
    hide Plain, Series, Or, Complement, Bar, Unsigned, Close, Print, PrintTerm, WellFormed, Value, Parse;
    var t := "(" + (Print(inner) + (")" + u));
    GroupText(negate, inner, u);
    UnsignedAfter(negate, t);
    CloseSkipsExpr(leaf, inner, ")" + u, 1);
    CloseShuts(u, 1);
    TurnGroup(leaf, Sign(negate) + t, value, Print(inner), u);
  }

  lemma {:induction false} PrintedIsNotEmpty(leaf: Lookup, e: Expr)
    requires Plain(leaf) && WellFormed(leaf, e)
    ensures Print(e) != ""
  {
    assert e.term.Single? ==> e.term.name != "";
  }

  lemma OrJoins(a: bv64, b: bv64, c: bv64)
    ensures Or(Or(a, b), c) == Or(a, Or(b, c)) && Or(0, a) == a
  {
  }

  /** The parser's loop reads a whole printed expression. */
  lemma {:induction false} SeriesReads(leaf: Lookup, e: Expr, value: bv64)
    requires Plain(leaf) && WellFormed(leaf, e)
    ensures Series(leaf, Print(e), value) == Some(Or(value, Value(leaf, e)))
    decreases e
  {
    hide Plain, Unsigned, Close, Bar, Or, Complement, PrintTerm, Print;
    var u := Tail(e);
    var v := TermValue(leaf, e.term);
    PrintIsTermAndTail(e);
    match e.term {
      case Single(negate, name) =>
        SeriesSingle(leaf, negate, name, u, value);
      case Group(negate, inner) =>
        SeriesReads(leaf, inner, 0);
        PrintedIsNotEmpty(leaf, inner);
        OrJoins(Value(leaf, inner), 0, 0);
        SeriesGroup(leaf, negate, inner, u, value);
    }
    if e.More? {
      PrintedIsNotEmpty(leaf, e.rest);
      SeriesReads(leaf, e.rest, Or(value, v));
      OrJoins(value, v, Value(leaf, e.rest));
    }
  }

  /** Printing any well-formed expression and parsing it back yields its value. */
  lemma {:induction false} PrintParses(leaf: Lookup, e: Expr)
    requires Plain(leaf) && WellFormed(leaf, e)
    ensures Parse(leaf, Print(e)) == Some(Value(leaf, e))
  {
    hide Plain, Series, Or, Print, Value;
    SeriesReads(leaf, e, 0);
    PrintedIsNotEmpty(leaf, e);
    OrJoins(Value(leaf, e), 0, 0);
  }

  // ---------------------------------------------------------------- nothing else is parsed

  /** A text that starts with a parenthesis, cut at the matching one. */
  lemma GroupCut(s: string) returns (group: string, after: string)
    requires s != "" && Unsigned(s) != "" && Unsigned(s)[0] == '(' && Close(Unsigned(s)[1..], 1).Some?
    ensures Unsigned(s) == "(" + (group + (")" + after)) && Close(group + (")" + after), 1) == Some(|group|)
    ensures s == Sign(s[0] == '~') + ("(" + (group + (")" + after)))
  {
    hide Close;
    var t := Unsigned(s);
    var n := Close(t[1..], 1).value;
    group, after := t[1..n + 1], t[n + 2..];
    assert t[1..] == group + (")" + after);
    assert t == "(" + t[1..];
  }

  lemma {:induction false} GroupStarts(leaf: Lookup, s: string, value: bv64)
    requires s != "" && Unsigned(s) != "" && Unsigned(s)[0] == '(' && Series(leaf, s, value).Some?
    ensures Close(Unsigned(s)[1..], 1).Some?
  {
    hide Close, Or, Complement, Parse;
  }

  lemma {:induction false} SingleStarts(leaf: Lookup, s: string, value: bv64)
    requires s != "" && !(Unsigned(s) != "" && Unsigned(s)[0] == '(') && Series(leaf, s, value).Some?
    ensures var t := Unsigned(s); leaf(t[..Bar(t)]).Some?
  {
    hide Close, Or, Complement, Parse, Unsigned;
  }

  lemma Cut(t: string, n: nat)
    requires n < |t|
    ensures t == t[..n] + ([t[n]] + t[n + 1..])
  {
  }

  lemma Assoc(a: string, b: string, c: string)
    ensures a + (b + c) == (a + b) + c
  {
  }

  lemma SignedAgain(s: string)
    requires s != ""
    ensures s == Sign(s[0] == '~') + Unsigned(s)
  {
  }

  /** What stands behind the first bar, with the bar. */
  function Behind(t: string): string {
    var n := Bar(t);
    if n == |t| then "" else ['|'] + t[n + 1..]
  }

  lemma {:induction false} SingleText(s: string, t: string)
    requires s != "" && t == Unsigned(s)
    ensures s == PrintTerm(Single(s[0] == '~', t[..Bar(t)])) + Behind(t)
  {
    hide Bar, Unsigned;
    var n := Bar(t);
    SignedAgain(s);
    if n < |t| {
      Cut(t, n);
      Assoc(Sign(s[0] == '~'), t[..n], Behind(t));
    } else {
      assert t[..n] == t && Behind(t) == "";
    }
  }

  /** The expression behind an accepted text. */
  lemma {:induction false} SeriesBuilds(leaf: Lookup, s: string, value: bv64) returns (e: Expr)
    requires s != "" && Series(leaf, s, value).Some?
    ensures WellFormed(leaf, e) && Print(e) == s && Series(leaf, s, value) == Some(Or(value, Value(leaf, e)))
    decreases |s|, 1
  {
    hide Series, Unsigned, Close, Bar, Or, Complement;
    if Unsigned(s) != "" && Unsigned(s)[0] == '(' {
      e := GroupBuilds(leaf, s, value);
    } else {
      e := SingleBuilds(leaf, s, value);
    }
  }

  lemma {:induction false} GroupBuilds(leaf: Lookup, s: string, value: bv64) returns (e: Expr)
    requires s != "" && Series(leaf, s, value).Some? && Unsigned(s) != "" && Unsigned(s)[0] == '('
    ensures WellFormed(leaf, e) && Print(e) == s && Series(leaf, s, value) == Some(Or(value, Value(leaf, e)))
    decreases |s|, 0
  {
    hide Series, Unsigned, Close, Bar, Or, Complement, PrintTerm;
    GroupStarts(leaf, s, value);
    var group, after := GroupCut(s);
    TurnGroup(leaf, s, value, group, after);
    var inner := SeriesBuilds(leaf, group, 0);
    OrJoins(Value(leaf, inner), 0, 0);
    var term := Group(s[0] == '~', inner);
    GroupText(s[0] == '~', inner, after);
    var v := TermValue(leaf, term);
    if after == "" {
      e := Last(term, false);
    } else {
      var rest := SeriesBuilds(leaf, after[1..], Or(value, v));
      e := More(term, rest);
      assert after == "|" + after[1..];
      Regroup(PrintTerm(term), "|", Print(rest), "", "");
      OrJoins(value, v, Value(leaf, rest));
    }
  }

  lemma {:induction false} SingleBuilds(leaf: Lookup, s: string, value: bv64) returns (e: Expr)
    requires s != "" && Series(leaf, s, value).Some? && !(Unsigned(s) != "" && Unsigned(s)[0] == '(')
    ensures WellFormed(leaf, e) && Print(e) == s && Series(leaf, s, value) == Some(Or(value, Value(leaf, e)))
    decreases |s|, 0
  {
    hide Unsigned, Close, Bar, Or, Complement, PrintTerm;
    var t := Unsigned(s);
    var n := Bar(t);
    SingleStarts(leaf, s, value);
    TurnSingle(leaf, s, value, t);
    SingleText(s, t);
    var term := Single(s[0] == '~', t[..n]);
    var v := TermValue(leaf, term);
    if n == |t| || n + 1 == |t| {
      e := Last(term, n < |t|);
    } else {
      UnsignedIsShorter(s);
      var rest := SeriesBuilds(leaf, t[n + 1..], Or(value, v));
      e := More(term, rest);
      OrJoins(value, v, Value(leaf, rest));
    }
  }

  lemma UnsignedIsShorter(s: string)
    ensures |Unsigned(s)| <= |s|
  {
  }

  /** `s` is the text of a well-formed expression of value `v`. */
  ghost predicate Denotes(leaf: Lookup, s: string, v: bv64) {
    exists e: Expr :: WellFormed(leaf, e) && Print(e) == s && Value(leaf, e) == v
  }

  /** The parser accepts exactly the texts of well-formed expressions, with their value. */
  lemma {:induction false} ParseIff(leaf: Lookup, s: string, v: bv64)
    requires Plain(leaf)
    ensures Parse(leaf, s) == Some(v) <==> Denotes(leaf, s, v)
  {
    hide Plain, Series, Or, Print, Value, WellFormed;
    if Parse(leaf, s) == Some(v) {
      var e := SeriesBuilds(leaf, s, 0);
      OrJoins(Value(leaf, e), 0, 0);
    }
    if Denotes(leaf, s, v) {
      var e: Expr :| WellFormed(leaf, e) && Print(e) == s && Value(leaf, e) == v;
      PrintParses(leaf, e);
    }
  }

  // ---------------------------------------------------------------- what the value is, in machine words

  /** An expression sets a bit when one of its terms does. */
  predicate Sets(leaf: Lookup, e: Expr, m: bv64)
    requires WellFormed(leaf, e)
  {
    match e
    case Last(t, _) => SetsTerm(leaf, t, m)
    case More(t, rest) => SetsTerm(leaf, t, m) || Sets(leaf, rest, m)
  }

  /** A constant sets its own bits, a parenthesis those of its expression, and `~` all the others. */
  predicate SetsTerm(leaf: Lookup, t: Term, m: bv64)
    requires WellFormedTerm(leaf, t)
  {
    match t
    case Single(negate, name) => Meets(leaf(name).value, m) != negate
    case Group(negate, inner) => Sets(leaf, inner, m) != negate
  }

  lemma OrBit(a: bv64, b: bv64, m: bv64)
    ensures Meets(Or(a, b), m) <==> Meets(a, m) || Meets(b, m)
  {
    hide Meets;
    BitOfOr(a, b, m);
  }

  lemma ComplementBit(negate: bool, v: bv64, m: bv64)
    requires OneBit(m)
    ensures Meets(Complement(negate, v), m) <==> Meets(v, m) != negate
  {
    hide OneBit, Meets;
    BitOfNot(v, m);
  }

  /** Every bit of the value of a term or an expression, for every expression. */
  lemma {:induction false} TermBits(leaf: Lookup, t: Term, m: bv64)
    requires WellFormedTerm(leaf, t) && OneBit(m)
    ensures Meets(TermValue(leaf, t), m) <==> SetsTerm(leaf, t, m)
    decreases t, 0
  {
    hide Complement, Or, OneBit, Meets;
    match t
    case Single(negate, name) => ComplementBit(negate, leaf(name).value, m);
    case Group(negate, inner) =>
      ComplementBit(negate, Value(leaf, inner), m);
      ValueBits(leaf, inner, m);
  }

  lemma {:induction false} ValueBits(leaf: Lookup, e: Expr, m: bv64)
    requires WellFormed(leaf, e) && OneBit(m)
    ensures Meets(Value(leaf, e), m) <==> Sets(leaf, e, m)
    decreases e, 1
  {
    hide Complement, Or, OneBit, Meets;
    TermBits(leaf, e.term, m);
    match e
    case Last(_, _) =>
    case More(t, rest) =>
      ValueBits(leaf, rest, m);
      OrBit(TermValue(leaf, t), Value(leaf, rest), m);
  }

  /** A single constant, plain and complemented. */
  lemma {:induction false} ParsesConstant(leaf: Lookup, a: string)
    requires Plain(leaf) && leaf(a).Some?
    ensures Parse(leaf, a) == leaf(a)
    ensures Parse(leaf, "~" + a) == Some(!leaf(a).value)
  {
    hide Plain, Parse;
    var yes, no := Last(Single(false, a), false), Last(Single(true, a), false);
    PrintParses(leaf, yes);
    PrintParses(leaf, no);
    assert Print(yes) == a;
    assert Print(no) == "~" + a;
  }

  /** The expression that an accepted text prints. */
  lemma {:induction false} Accepted(leaf: Lookup, s: string) returns (e: Expr)
    requires Plain(leaf) && Parse(leaf, s).Some?
    ensures WellFormed(leaf, e) && Print(e) == s && Value(leaf, e) == Parse(leaf, s).value
  {
    hide Plain, Parse, WellFormed, Print, Value;
    ParseIff(leaf, s, Parse(leaf, s).value);
    e :| WellFormed(leaf, e) && Print(e) == s && Value(leaf, e) == Parse(leaf, s).value;
  }

  /** A term in front of an accepted text. */
  lemma {:induction false} TermThenText(leaf: Lookup, t: Term, text: string, s: string)
    requires Plain(leaf) && WellFormedTerm(leaf, t) && PrintTerm(t) == text && Parse(leaf, s).Some?
    ensures Parse(leaf, text + "|" + s) == Some(Or(TermValue(leaf, t), Parse(leaf, s).value))
  {
    hide Plain, Parse, PrintTerm, WellFormedTerm, TermValue, Or;
    var rest := Accepted(leaf, s);
    PrintParses(leaf, More(t, rest));
  }

  lemma {:induction false} TermAlone(leaf: Lookup, t: Term, text: string)
    requires Plain(leaf) && WellFormedTerm(leaf, t) && PrintTerm(t) == text
    ensures Parse(leaf, text) == Some(TermValue(leaf, t))
  {
    hide Plain, Parse, PrintTerm, WellFormedTerm, TermValue, Or;
    PrintParses(leaf, Last(t, false));
    assert text + "" == text;
  }

  lemma {:induction false} SingleIs(leaf: Lookup, a: string)
    requires leaf(a).Some?
    ensures WellFormedTerm(leaf, Single(false, a)) && WellFormedTerm(leaf, Single(true, a))
    ensures PrintTerm(Single(false, a)) == a && PrintTerm(Single(true, a)) == "~" + a
    ensures TermValue(leaf, Single(false, a)) == leaf(a).value && TermValue(leaf, Single(true, a)) == !leaf(a).value
  {
    hide Print, WellFormed, Value;
  }

  /** A constant, plain or complemented, in front of an accepted text. */
  lemma {:induction false} ParsesSeries(leaf: Lookup, a: string, s: string)
    requires Plain(leaf) && leaf(a).Some? && Parse(leaf, s).Some?
    ensures Parse(leaf, a + "|" + s) == Some(leaf(a).value | Parse(leaf, s).value)
    ensures Parse(leaf, "~" + a + "|" + s) == Some(!leaf(a).value | Parse(leaf, s).value)
  {
    hide Plain, Parse, PrintTerm, WellFormedTerm, TermValue;
    SingleIs(leaf, a);
    TermThenText(leaf, Single(false, a), a, s);
    TermThenText(leaf, Single(true, a), "~" + a, s);
  }

  lemma {:induction false} GroupIs(leaf: Lookup, e: Expr, s: string)
    requires WellFormed(leaf, e) && Print(e) == s
    ensures WellFormedTerm(leaf, Group(false, e)) && WellFormedTerm(leaf, Group(true, e))
    ensures PrintTerm(Group(false, e)) == "(" + s + ")"
    ensures PrintTerm(Group(true, e)) == "~(" + s + ")"
    ensures TermValue(leaf, Group(false, e)) == Value(leaf, e) && TermValue(leaf, Group(true, e)) == !Value(leaf, e)
  {
    hide Print, WellFormed, Value;
    assert "~" + ("(" + s + ")") == "~(" + s + ")";
  }

  /** An accepted text in parentheses, plain and complemented. */
  lemma {:induction false} ParsesGroup(leaf: Lookup, s: string, v: bv64)
    requires Plain(leaf) && Parse(leaf, s) == Some(v)
    ensures Parse(leaf, "(" + s + ")") == Some(v)
    ensures Parse(leaf, "~(" + s + ")") == Some(!v)
  {
    hide Plain, Parse, PrintTerm, WellFormedTerm, TermValue;
    var e := Accepted(leaf, s);
    GroupIs(leaf, e, s);
    TermAlone(leaf, Group(false, e), "(" + s + ")");
    TermAlone(leaf, Group(true, e), "~(" + s + ")");
  }

  /** The same in front of another accepted text. */
  lemma {:induction false} ParsesGroupSeries(leaf: Lookup, s: string, v: bv64, u: string, w: bv64)
    requires Plain(leaf) && Parse(leaf, s) == Some(v) && Parse(leaf, u) == Some(w)
    ensures Parse(leaf, "(" + s + ")" + "|" + u) == Some(v | w)
  {
    hide *;
    var e := Accepted(leaf, s);
    GroupIs(leaf, e, s);
    TermThenText(leaf, Group(false, e), "(" + s + ")", u);
    OrIs(v, w);
  }

  lemma {:induction false} ParsesComplementSeries(leaf: Lookup, s: string, v: bv64, u: string, w: bv64)
    requires Plain(leaf) && Parse(leaf, s) == Some(v) && Parse(leaf, u) == Some(w)
    ensures Parse(leaf, "~(" + s + ")" + "|" + u) == Some(!v | w)
  {
    hide *;
    var t := ComplementTerm(leaf, s, v);
    TermThenText(leaf, t, "~(" + s + ")", u);
    OrIs(!v, w);
  }

  lemma {:induction false} ComplementTerm(leaf: Lookup, s: string, v: bv64) returns (t: Term)
    requires Plain(leaf) && Parse(leaf, s) == Some(v)
    ensures WellFormedTerm(leaf, t) && PrintTerm(t) == "~(" + s + ")" && TermValue(leaf, t) == !v
  {
    hide *;
    var e := Accepted(leaf, s);
    GroupIs(leaf, e, s);
    t := Group(true, e);
  }

  lemma OrIs(v: bv64, w: bv64)
    ensures Or(v, w) == v | w
  {
  }

  /** What is refused: nothing at all, an unknown constant, a parenthesis that is not closed, and a closed one that is
      followed by anything but a bar and more.  A constant may be followed by a stray bar. */
  lemma {:induction false} ParsesNothing(leaf: Lookup, a: string)
    requires Plain(leaf) && leaf(a).Some?
    ensures Parse(leaf, "") == None && Parse(leaf, "~") == None && Parse(leaf, "|") == None
    ensures Parse(leaf, a + "|") == leaf(a)
  {
    assert Unsigned("~") == "" && Unsigned("|") == "|";
    assert Bar("|") == 0 && "|"[..0] == "";
    assert leaf("") == None;
    hide Plain, Parse;
    var stray := Last(Single(false, a), true);
    PrintParses(leaf, stray);
    assert Print(stray) == a + "|";
  }

  lemma {:induction false} RefusesUnknown(leaf: Lookup, a: string, u: string)
    requires Word(a) && a != "" && leaf(a) == None && (u == "" || u[0] == '|')
    ensures Parse(leaf, a + u) == None && Parse(leaf, "~" + (a + u)) == None
  {
    hide Or, Complement, Close;
    BarAfterWord(a, u);
    var t := a + u;
    assert t[..|a|] == a;
    UnsignedAfter(true, t);
    UnsignedAfter(false, t);
    assert "" + t == t;
  }

  lemma {:induction false} RefusesTrailing(leaf: Lookup, s: string, u: string)
    requires Plain(leaf) && Parse(leaf, s).Some? && (u == "|" || (u != "" && u[0] != '|'))
    ensures Parse(leaf, "(" + (s + (")" + u))) == None && Parse(leaf, "~" + ("(" + (s + (")" + u)))) == None
  {
    hide Plain, Series, Or, Complement, Bar, Unsigned, Close, Print, WellFormed, Value;
    var e := Accepted(leaf, s);
    CloseSkipsExpr(leaf, e, ")" + u, 1);
    CloseShuts(u, 1);
    var t := "(" + (s + (")" + u));
    UnsignedAfter(true, t);
    UnsignedAfter(false, t);
    assert "" + t == t;
    TurnGroup(leaf, t, 0, s, u);
    TurnGroup(leaf, "~" + t, 0, s, u);
  }

  lemma {:induction false} RefusesUnclosed(leaf: Lookup, s: string)
    requires Plain(leaf) && Parse(leaf, s).Some?
    ensures Parse(leaf, "(" + s) == None && Parse(leaf, "~" + ("(" + s)) == None
  {
    hide Plain, Or, Complement, Bar, Print, WellFormed, Value, Parse;
    var e := Accepted(leaf, s);
    CloseSkipsExpr(leaf, e, "", 1);
    assert s + "" == s && Close("", 1) == None;
    UnclosedTurn(leaf, s, false);
    UnclosedTurn(leaf, s, true);
    assert "" + ("(" + s) == "(" + s;
  }

  lemma {:induction false} UnclosedTurn(leaf: Lookup, s: string, negate: bool)
    requires Close(s, 1) == None
    ensures Parse(leaf, Sign(negate) + ("(" + s)) == None
  {
    hide Or, Complement, Bar, Close;
    var t := "(" + s;
    UnsignedAfter(negate, t);
    assert t[1..] == s;
  }

  // ---------------------------------------------------------------- the parser in place

  /** A NUL-terminated string stands at `at`. */
  ghost predicate Holds(b: seq<char>, at: int, s: string) {
    0 <= at && at + |s| < |b| && b[at..at + |s|] == s && b[at + |s|] == '\0' && '\0' !in s
  }

  lemma HeldChar(b: seq<char>, at: int, s: string, i: nat)
    requires Holds(b, at, s) && i <= |s|
    ensures i < |s| ==> b[at + i] == s[i] && b[at + i] != '\0'
    ensures i == |s| ==> b[at + i] == '\0'
  {
    if i < |s| {
      assert b[at + i] == b[at..at + |s|][i];
    }
  }

  /** Everything outside the string is as it was. */
  ghost predicate Outside(b: seq<char>, c: seq<char>, from: int, to: int) {
    |b| == |c| && forall i :: 0 <= i < |b| && !(from <= i < to) ==> b[i] == c[i]
  }

  lemma OutsideTrans(a: seq<char>, b: seq<char>, c: seq<char>, from: int, to: int, from': int, to': int)
    requires Outside(a, b, from, to) && Outside(b, c, from', to') && from <= from' <= to' <= to
    ensures Outside(a, c, from, to)
  {
  }

  /** A string survives what happens before it. */
  lemma HoldsAfter(b: seq<char>, c: seq<char>, at: int, s: string, from: int, to: int)
    requires Holds(b, at, s) && Outside(b, c, from, to) && to <= at
    ensures Holds(c, at, s)
  {
    assert c[at..at + |s|] == b[at..at + |s|];
  }

  /** Cutting a string in two by writing a NUL over one of its characters. */
  lemma CutInPlace(b: seq<char>, at: int, s: string, n: nat)
    requires Holds(b, at, s) && n < |s|
    ensures var c := b[at + n := '\0'];
            Holds(c, at, s[..n]) && Holds(c, at + n + 1, s[n + 1..]) && Outside(b, c, at, at + |s|)
  {
    var c := b[at + n := '\0'];
    assert c[at..at + n] == b[at..at + |s|][..n];
    assert c[at + n + 1..at + |s|] == b[at..at + |s|][n + 1..];
  }

  /** Dropping the first characters of a string. */
  lemma HoldsSuffix(b: seq<char>, at: int, s: string, n: nat)
    requires Holds(b, at, s) && n <= |s|
    ensures Holds(b, at + n, s[n..])
  {
    assert b[at + n..at + |s|] == b[at..at + |s|][n..];
  }

  /** `tokenize` at a bar: `-1` stands for the null pointer. */
  method Tokenize(buf: array<char>, at: nat, ghost s: string) returns (next: int)
    requires Holds(buf[..], at, s)
    modifies buf
    ensures Holds(buf[..], at, s[..Bar(s)]) && Outside(old(buf[..]), buf[..], at, at + |s|)
    ensures if Bar(s) == |s| then next == -1 && buf[..] == old(buf[..])
            else next == at + Bar(s) + 1 && Holds(buf[..], next, s[Bar(s) + 1..])
  {
    hide Holds, Outside;
    assert at + |s| < buf.Length by { HoldsBounds(buf[..], at, s); }
    var found: nat := at;
    HeldChar(buf[..], at, s, 0);
    while buf[found] != '|' && buf[found] != '\0'
      invariant at <= found <= at + |s| && buf[..] == old(buf[..])
      invariant Bar(s) == found - at + Bar(s[found - at..])
      invariant found < at + |s| ==> buf[found] == s[found - at] && buf[found] != '\0'
      invariant found == at + |s| ==> buf[found] == '\0'
      decreases at + |s| - found
    {
      assert s[found - at..][1..] == s[found - at + 1..];
      HeldChar(buf[..], at, s, found - at + 1);
      found := found + 1;
    }
    if buf[found] == '\0' {
      assert s[..Bar(s)] == s;
      OutsideSame(buf[..], at, at + |s|);
      return -1;
    }
    CutInPlace(buf[..], at, s, found - at);
    buf[found] := '\0';
    assert buf[..] == old(buf[..])[found := '\0'];
    return found + 1;
  }

  lemma OutsideSame(b: seq<char>, from: int, to: int)
    ensures Outside(b, b, from, to)
  {
  }

  lemma HoldsBounds(b: seq<char>, at: int, s: string)
    requires Holds(b, at, s)
    ensures 0 <= at && at + |s| < |b|
  {
  }

  /** The depth after a character. */
  function Deeper(c: char, depth: nat): nat
    requires depth > 0
  {
    if c == '(' then depth + 1 else if c == ')' then depth - 1 else depth
  }

  lemma {:induction false} CloseTurn(s: string, i: nat, depth: nat)
    requires depth > 0 && i < |s|
    ensures Deeper(s[i], depth) == 0 ==> Close(s[i..], depth) == Some(0)
    ensures Deeper(s[i], depth) > 0 ==> Close(s[i..], depth) == Shift(Close(s[i + 1..], Deeper(s[i], depth)), 1)
  {
    assert s[i..][1..] == s[i + 1..];
  }

  /** The scan for the closing parenthesis. */
  method FindClosing(buf: array<char>, at: nat, ghost s: string) returns (found: int)
    requires Holds(buf[..], at, s)
    ensures Close(s, 1).None? ==> found == -1
    ensures Close(s, 1).Some? ==> found == at + Close(s, 1).value
  {
    hide Holds, Close;
    assert at + |s| < buf.Length by { HoldsBounds(buf[..], at, s); }
    var count: nat := 1;
    found := at;
    HeldChar(buf[..], at, s, 0);
    assert s[0..] == s;
    while buf[found] != '\0'
      invariant at <= found <= at + |s| && count > 0
      invariant Close(s, 1) == Shift(Close(s[found - at..], count), found - at)
      invariant found < at + |s| ==> buf[found] == s[found - at] && buf[found] != '\0'
      invariant found == at + |s| ==> buf[found] == '\0'
      decreases at + |s| - found
    {
      CloseTurn(s, found - at, count);
      if buf[found] == '(' {
        count := count + 1;
      } else if buf[found] == ')' {
        count := count - 1;
        if count == 0 {
          return;
        }
      }
      HeldChar(buf[..], at, s, found - at + 1);
      found := found + 1;
    }
    CloseNothing(s, count);
    return -1;
  }

  lemma {:induction false} CloseNothing(s: string, depth: nat)
    requires depth > 0
    ensures Close(s[|s|..], depth) == None
  {
  }

  /** `tokenize_parenthesized_expression` on a string that starts with a parenthesis. */
  method TokenizeParenthesized(buf: array<char>, at: nat, ghost s: string) returns (group: int, next: int)
    requires Holds(buf[..], at, s) && s != "" && s[0] == '('
    modifies buf
    ensures Close(s[1..], 1).None? ==> group == -1 && buf[..] == old(buf[..])
    ensures Close(s[1..], 1).Some? ==>
              var n := Close(s[1..], 1).value;
              group == at + 1 && Holds(buf[..], group, s[1..n + 1])
              && next == at + n + 2 && Holds(buf[..], next, s[n + 2..])
    ensures Outside(old(buf[..]), buf[..], at, at + |s|)
  {
    hide Holds, Outside, Close;
    HoldsSuffix(buf[..], at, s, 1);
    HoldsBounds(buf[..], at, s);
    var found := FindClosing(buf, at + 1, s[1..]);
    if found == -1 {
      OutsideSame(buf[..], at, at + |s|);
      return -1, -1;
    }
    ParenthesesCut(buf[..], at, s, found - at);
    ghost var was := buf[..];
    buf[found] := '\0';
    assert buf[..] == was[found := '\0'];
    return at + 1, found + 1;
  }

  lemma ParenthesesCut(b: seq<char>, at: int, s: string, n: nat)
    requires Holds(b, at, s) && 1 <= n < |s|
    ensures var c := b[at + n := '\0'];
            Holds(c, at + 1, s[1..n]) && Holds(c, at + n + 1, s[n + 1..]) && Outside(b, c, at, at + |s|)
  {
    CutInPlace(b, at, s, n);
    HoldsSuffix(b[at + n := '\0'], at, s[..n], 1);
    assert s[..n][1..] == s[1..n];
  }

  /** `parse_single_constant`: failure leaves the end at the beginning. */
  method ParseSingle(leaf: Lookup, buf: array<char>, at: nat, ghost s: string) returns (value: bv64, end: nat)
    requires Holds(buf[..], at, s)
    ensures leaf(s).None? ==> end == at
    ensures leaf(s).Some? ==> value == leaf(s).value && end == at + |s|
  {
    hide Holds;
    assert at + |s| < buf.Length by { HoldsBounds(buf[..], at, s); }
    var n: nat := at;
    HeldChar(buf[..], at, s, 0);
    while buf[n] != '\0'
      invariant at <= n <= at + |s|
      invariant n < at + |s| ==> buf[n] != '\0'
      invariant n == at + |s| ==> buf[n] == '\0'
      decreases at + |s| - n
    {
      HeldChar(buf[..], at, s, n - at + 1);
      n := n + 1;
    }
    assert buf[at..n] == s by { HoldsText(buf[..], at, s); }
    match leaf(buf[at..n])
    case None => return 0, at;
    case Some(v) => return v, n;
  }

  lemma HoldsText(b: seq<char>, at: int, s: string)
    requires Holds(b, at, s)
    ensures b[at..at + |s|] == s
  {
  }

  /** Where the parser goes on: a null pointer once the text is used up, else a string that
      reaches to the end of the original one. */
  ghost predicate At(b: seq<char>, next: int, rest: string, start: nat, stop: nat) {
    if next == -1 then rest == "" else start < next && next + |rest| == stop && Holds(b, next, rest)
  }

  /** A turn of the loop on a constant: `t` stands at `p`, behind its sign. */
  method TakeSingle(leaf: Lookup, buf: array<char>, p: nat, value: bv64, negate: bool, ghost r: string, ghost t: string)
    returns (ok: bool, joined: bv64, last: nat, next: int, ghost rest: string)
    requires Plain(leaf) && Holds(buf[..], p, t) && r != "" && t == Unsigned(r) && (negate <==> r[0] == '~')
    requires !(t != "" && t[0] == '(')
    modifies buf
    ensures Outside(old(buf[..]), buf[..], p, p + |t|)
    ensures ok ==> p < last <= p + |t| && At(buf[..], next, rest, p, p + |t|) && |rest| < |r|
    ensures if ok then Series(leaf, r, value) == Series(leaf, rest, joined) else Series(leaf, r, value) == None
  {
    hide Holds, Outside, Series, Bar, Or, Complement, Unsigned;
    UnsignedIsShorter(r);
    joined, rest := 0, "";
    next := Tokenize(buf, p, t);
    var v, end := ParseSingle(leaf, buf, p, t[..Bar(t)]);
    if end == p {
      SingleFails(leaf, r, value);
      return false, 0, p, next, "";
    }
    TurnSingle(leaf, r, value, t);
    rest := if Bar(t) == |t| then "" else t[Bar(t) + 1..];
    return true, Or(value, Complement(negate, v)), end, next, rest;
  }

  lemma {:induction false} SingleFails(leaf: Lookup, s: string, value: bv64)
    requires Plain(leaf) && s != "" && !(Unsigned(s) != "" && Unsigned(s)[0] == '(')
    requires var t := Unsigned(s); leaf(t[..Bar(t)]).None? || t[..Bar(t)] == ""
    ensures Series(leaf, s, value) == None
  {
    hide Series, Unsigned, Bar;
    if Series(leaf, s, value).Some? {
      SingleStarts(leaf, s, value);
    }
  }

  lemma {:induction false} GroupFails(leaf: Lookup, s: string, value: bv64)
    requires s != "" && Unsigned(s) != "" && Unsigned(s)[0] == '(' && Close(Unsigned(s)[1..], 1).None?
    ensures Series(leaf, s, value) == None
  {
    hide Series, Unsigned, Close;
    if Series(leaf, s, value).Some? {
      GroupStarts(leaf, s, value);
    }
  }

  lemma {:induction false} GroupTurn(leaf: Lookup, s: string, value: bv64, n: nat)
    requires s != "" && Unsigned(s) != "" && Unsigned(s)[0] == '(' && Close(Unsigned(s)[1..], 1) == Some(n)
    ensures var t := Unsigned(s);
            Series(leaf, s, value) == AfterGroup(leaf, Parse(leaf, t[1..n + 1]), s[0] == '~', value, t[n + 2..])
  {
    hide Unsigned, Close, Or, Complement, Parse;
  }

  lemma {:induction false} SeriesEnds(leaf: Lookup, value: bv64)
    ensures Series(leaf, "", value) == Some(value)
  {
  }

  /** A turn of the loop on a parenthesis. */
  method TakeGroup(leaf: Lookup, buf: array<char>, p: nat, value: bv64, negate: bool, ghost r: string, ghost t: string)
    returns (ok: bool, joined: bv64, last: nat, next: int, ghost rest: string)
    requires Plain(leaf) && Holds(buf[..], p, t) && r != "" && t == Unsigned(r) && (negate <==> r[0] == '~')
    requires t != "" && t[0] == '('
    modifies buf
    ensures Outside(old(buf[..]), buf[..], p, p + |t|)
    ensures ok ==> p < last <= p + |t| && At(buf[..], next, rest, p, p + |t|) && |rest| < |r|
    ensures if ok then Series(leaf, r, value) == Series(leaf, rest, joined) else Series(leaf, r, value) == None
    decreases |r|, 0
  {
    hide Plain, Holds, Outside, Series, Or, Complement, Unsigned, Close, Parse;
    UnsignedIsShorter(r);
    joined, rest, last := 0, "", p;
    ghost var b0 := buf[..];
    var group;
    group, next := TokenizeParenthesized(buf, p, t);
    if group == -1 {
      GroupFails(leaf, r, value);
      ok := false;
      return;
    }
    ghost var n := Close(t[1..], 1).value;
    ghost var after := t[n + 2..];
    GroupTurn(leaf, r, value, n);
    ghost var b1 := buf[..];
    var v, end := ParseConstant(leaf, buf, group, t[1..n + 1]);
    OutsideTrans(b0, b1, buf[..], p, p + |t|, group, group + n);
    if end == group {
      ok := false;
      return;
    }
    HoldsAfter(b1, buf[..], next, after, group, group + n);
    HoldsBounds(buf[..], next, after);
    HeldChar(buf[..], next, after, 0);
    if buf[next] != '\0' {
      if buf[next] != '|' {
        ok := false;
        return;
      }
      HeldChar(buf[..], next, after, 1);
      HoldsSuffix(buf[..], next, after, 1);
      next := next + 1;
      if buf[next] == '\0' {
        ok := false;
        return;
      }
      rest := after[1..];
    } else {
      SeriesEnds(leaf, Or(value, Complement(negate, v)));
      rest := after;
    }
    ok, last, joined := true, end, Or(value, Complement(negate, v));
  }

  /** A turn of the loop: the sign, then a parenthesis or a constant. */
  method TakeTerm(leaf: Lookup, buf: array<char>, at: nat, value: bv64, ghost r: string)
    returns (ok: bool, joined: bv64, last: nat, next: int, ghost rest: string)
    requires Plain(leaf) && Holds(buf[..], at, r) && r != ""
    modifies buf
    ensures Outside(old(buf[..]), buf[..], at, at + |r|)
    ensures ok ==> at < last <= at + |r| && At(buf[..], next, rest, at, at + |r|) && |rest| < |r|
    ensures if ok then Series(leaf, r, value) == Series(leaf, rest, joined) else Series(leaf, r, value) == None
    decreases |r|, 1
  {
    hide Plain, Holds, Outside, Series, Unsigned, At;
    HoldsBounds(buf[..], at, r);
    HeldChar(buf[..], at, r, 0);
    ghost var b := buf[..];
    var negate := buf[at] == '~';
    var p: nat := at;
    if negate {
      HoldsSuffix(buf[..], at, r, 1);
      p := p + 1;
    }
    ghost var t := Unsigned(r);
    SignedText(r, negate);
    HeldChar(buf[..], p, t, 0);
    if buf[p] == '(' {
      ok, joined, last, next, rest := TakeGroup(leaf, buf, p, value, negate, r, t);
    } else {
      ok, joined, last, next, rest := TakeSingle(leaf, buf, p, value, negate, r, t);
    }
    OutsideSame(b, at, at + |r|);
    OutsideTrans(b, b, buf[..], at, at + |r|, p, p + |t|);
    if ok {
      AtFrom(buf[..], next, rest, p, at, at + |r|);
    }
  }

  /** `parse_constant`: on success the value, and an end behind the beginning; on failure zero,
      and an end at the beginning.  The buffer is cut up, but only between the two ends of the text. */
  method ParseConstant(leaf: Lookup, buf: array<char>, start: nat, ghost s: string) returns (value: bv64, end: nat)
    requires Plain(leaf) && Holds(buf[..], start, s)
    modifies buf
    ensures Outside(old(buf[..]), buf[..], start, start + |s|)
    ensures start <= end <= start + |s|
    ensures end == start <==> Parse(leaf, s) == None
    ensures end == start ==> value == 0
    ensures end > start ==> Parse(leaf, s) == Some(value)
    decreases |s|, 2
  {
    hide Plain, Holds, Outside, Series, Parse;
    ParseIsSeries(leaf, s);
    value := 0;
    var last := start;
    var at: int := start;
    ghost var rest := s;
    OutsideSame(buf[..], start, start + |s|);
    HoldsBounds(buf[..], start, s);
    while at != -1 && buf[at] != '\0'
      invariant at == -1 ==> rest == ""
      invariant at != -1 ==> start <= at && at + |rest| == start + |s| < buf.Length && Holds(buf[..], at, rest)
      invariant Outside(old(buf[..]), buf[..], start, start + |s|)
      invariant start <= last <= start + |s| && |rest| <= |s|
      invariant last == start ==> rest == s && value == 0 && at == start
      invariant last > start ==> s != "" && Series(leaf, s, 0) == Series(leaf, rest, value)
      decreases |rest|
    {
      HeldChar(buf[..], at, rest, 0);
      ghost var b := buf[..];
      var ok, joined, end', next;
      ghost var r;
      ok, joined, end', next, r := TakeTerm(leaf, buf, at, value, rest);
      OutsideTrans(old(buf[..]), b, buf[..], start, start + |s|, at, at + |rest|);
      if !ok {
        return 0, start;
      }
      value, last, at, rest := joined, end', next, r;
    }
    if at != -1 {
      HeldChar(buf[..], at, rest, 0);
    }
    SeriesEnds(leaf, value);
    end := last;
  }

  lemma {:induction false} ParseIsSeries(leaf: Lookup, s: string)
    ensures Parse(leaf, s) == if s == "" then None else Series(leaf, s, 0)
  {
  }

  lemma SignedText(r: string, negate: bool)
    requires r != "" && (negate <==> r[0] == '~')
    ensures Unsigned(r) == (if negate then r[1..] else r) && |Unsigned(r)| == |r| - |Sign(negate)|
  {
  }

  lemma AtFrom(b: seq<char>, next: int, rest: string, p: nat, start: nat, stop: nat)
    requires At(b, next, rest, p, stop) && start <= p
    ensures At(b, next, rest, start, stop)
  {
  }
}
