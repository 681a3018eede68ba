/** How a program with named labels is stored as instructions that carry label ids. */
module Encoding {
  import opened Bits
  import opened Machine
  import opened Labels

  /** `code` stores `syms`, with label names replaced by their indices in `table`. */
  ghost predicate Encodes<L>(table: seq<L>, syms: seq<Sym<L>>, code: Program) {
    && |syms| == |code|
    && forall i :: 0 <= i < |syms| ==> EncodesOne(table, syms[i], code[i])
  }

  ghost predicate EncodesOne<L>(table: seq<L>, s: Sym<L>, ins: SockFilter) {
    match s
    case Plain(p) => ins == p && AsSym(p).Plain?
    case Jump(name) => AsSym(ins).Jump? && ins.k < |table| && table[ins.k] == name
    case Mark(name) => AsSym(ins).Mark? && ins.k < |table| && table[ins.k] == name
  }

  lemma EncodesJoin<L>(table: seq<L>, s: seq<Sym<L>>, c: Program, t: seq<Sym<L>>, d: Program)
    requires Encodes(table, s, c) && Encodes(table, t, d)
    ensures Encodes(table, s + t, c + d)
  {
  }

  lemma EncodesGrow<L>(table: seq<L>, bigger: seq<L>, s: seq<Sym<L>>, c: Program)
    requires Encodes(table, s, c) && table <= bigger
    ensures Encodes(bigger, s, c)
  {
    forall i | 0 <= i < |s|
      ensures EncodesOne(bigger, s[i], c[i])
    {
      assert EncodesOne(table, s[i], c[i]);
    }
  }

  ghost predicate NoRepeats<L>(table: seq<L>) {
    forall i, j :: 0 <= i < j < |table| ==> table[i] != table[j]
  }

  /** Looking for a name and looking for its id find the same place. */
  lemma {:induction false} FindEncoded<L>(table: seq<L>, s: seq<Sym<L>>, c: Program, id: nat)
    requires Encodes(table, s, c) && NoRepeats(table) && id < |table|
    ensures Find(AsSyms(c), id) == Find(s, table[id])
  {
    if s != [] {
      assert EncodesOne(table, s[0], c[0]);
      assert AsSyms(c)[1..] == AsSyms(c[1..]);
      EncodesTail(table, s, c, 1);
      FindEncoded(table, s[1..], c[1..], id);
    }
  }

  lemma EncodesTail<L>(table: seq<L>, s: seq<Sym<L>>, c: Program, n: nat)
    requires Encodes(table, s, c) && n <= |s|
    ensures Encodes(table, s[n..], c[n..]) && AsSyms(c)[n..] == AsSyms(c[n..])
  {
    forall i | 0 <= i < |s[n..]|
      ensures EncodesOne(table, s[n..][i], c[n..][i])
    {
      assert EncodesOne(table, s[n + i], c[n + i]);
    }
  }

  /** Names and ids give programs with the same runs. */
  lemma {:induction false} EncodedRuns<L>(table: seq<L>, s: seq<Sym<L>>, c: Program, mem: seq<Byte>, a: nat,
                                          m: seq<nat>)
    requires Encodes(table, s, c) && NoRepeats(table) && |m| == MEM_WORDS
    ensures SymExec(AsSyms(c), mem, a, m) == SymExec(s, mem, a, m)
    decreases |s|, 0
  {
    if s != [] {
      EncodesTail(table, s, c, 1);
      var t, d := s[1..], c[1..];
      assert EncodesOne(table, s[0], c[0]);
      match s[0] {
        case Mark(_) => EncodedRuns(table, t, d, mem, a, m);
        case Jump(name) =>
          FindEncoded(table, t, d, c[0].k);
          var at := Find(t, name);
          if at.Some? {
            EncodedDrop(table, t, d, at.value, mem, a, m);
          }
        case Plain(ins) =>
          match ins.code {
            case LdAbs =>
              if Load(mem, ins.k).Some? {
                EncodedRuns(table, t, d, mem, Load(mem, ins.k).value, m);
              }
            case LdMem =>
              if ins.k < MEM_WORDS {
                EncodedRuns(table, t, d, mem, m[ins.k], m);
              }
            case St =>
              if ins.k < MEM_WORDS {
                EncodedRuns(table, t, d, mem, a, m[ins.k := a]);
              }
            case Ja => EncodedDrop(table, t, d, ins.k, mem, a, m);
            case Ret =>
            case Jmp(_) => EncodedDrop(table, t, d, Branch(ins, a), mem, a, m);
          }
      }
    }
  }

  lemma {:induction false} EncodedDrop<L>(table: seq<L>, s: seq<Sym<L>>, c: Program, n: nat, mem: seq<Byte>, a: nat,
                                          m: seq<nat>)
    requires Encodes(table, s, c) && NoRepeats(table) && |m| == MEM_WORDS
    ensures SymExec(DropSym(AsSyms(c), n), mem, a, m) == SymExec(DropSym(s, n), mem, a, m)
    decreases |s|, 1
  {
    if n <= |s| {
      EncodesTail(table, s, c, n);
      EncodedRuns(table, s[n..], c[n..], mem, a, m);
    }
  }

  /** Whether labels can be resolved does not depend on how they are numbered. */
  lemma EncodedResolvable<L>(table: seq<L>, s: seq<Sym<L>>, c: Program)
    requires Encodes(table, s, c) && NoRepeats(table)
    ensures Resolvable(AsSyms(c)) <==> Resolvable(s)
  {
    var t := AsSyms(c);
    forall i, j | 0 <= i < |s| && 0 <= j < |s| && !s[i].Plain? && !s[j].Plain?
      ensures !t[i].Plain? && !t[j].Plain? && (s[i].name == s[j].name <==> t[i].name == t[j].name)
      ensures s[i].Mark? == t[i].Mark?
    {
      assert EncodesOne(table, s[i], c[i]) && EncodesOne(table, s[j], c[j]);
    }
    forall i | 0 <= i < |s|
      ensures s[i].Plain? == t[i].Plain? && s[i].Mark? == t[i].Mark?
    {
      assert EncodesOne(table, s[i], c[i]);
    }
    forall i | 0 <= i < |s| && s[i].Jump?
      ensures Later(s, i) <==> Later(t, i)
    {
      if Later(s, i) {
        var j :| i < j < |s| && s[j] == Mark(s[i].name);
        assert t[j] == Mark(t[i].name);
      }
      if Later(t, i) {
        var j :| i < j < |t| && t[j] == Mark(t[i].name);
        assert s[j] == Mark(s[i].name);
      }
    }
  }
}
