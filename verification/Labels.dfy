/** Symbolic labels of bpf.c: the label table, and the backward pass that turns
    label jumps into relative jumps. */
module Labels {
  import opened Bits
  import opened Machine

  const MAX_INSNS: nat := 4096
  const LABELS_MAX: nat := 512
  const UNSET: nat := 0xffff_ffff

  const JUMP_MARK: nat := 0xff
  const LABEL_MARK: nat := 0xfe

  /** An instruction of a program whose jump targets may still be labels. */
  datatype Sym<L> = Plain(ins: SockFilter) | Jump(name: L) | Mark(name: L)

  function SetJumpLabel(id: nat): SockFilter { SockFilter(Ja, JUMP_MARK, JUMP_MARK, id) }

  function SetLabel(id: nat): SockFilter { SockFilter(Ja, LABEL_MARK, LABEL_MARK, id) }

  /** How bpf_resolve_jumps reads an instruction. */
  function AsSym(ins: SockFilter): Sym<nat> {
    if ins.code.Ja? && ins.jt == JUMP_MARK && ins.jf == JUMP_MARK then Jump(ins.k)
    else if ins.code.Ja? && ins.jt == LABEL_MARK && ins.jf == LABEL_MARK then Mark(ins.k)
    else Plain(ins)
  }

  function AsSyms(code: Program): (s: seq<Sym<nat>>)
    ensures |s| == |code| && forall i :: 0 <= i < |s| ==> s[i] == AsSym(code[i])
  {
    seq(|code|, i requires 0 <= i < |code| => AsSym(code[i]))
  }

  /** Where a label is placed first. */
  function Find<L(==)>(s: seq<Sym<L>>, name: L): (r: Option<nat>)
    ensures r.Some? ==> r.value < |s| && s[r.value] == Mark(name)
  {
    if s == [] then None
    else if s[0] == Mark(name) then Some(0)
    else
      var r := Find(s[1..], name);
      if r.Some? then Some(r.value + 1) else None
  }

  lemma {:induction false} FindFirst<L>(s: seq<Sym<L>>, name: L, i: nat)
    requires i < |s| && s[i] == Mark(name)
    ensures Find(s, name).Some? && Find(s, name).value <= i
  {
    if s[0] != Mark(name) {
      FindFirst(s[1..], name, i - 1);
    }
  }

  lemma {:induction false} FindSkips<L>(s: seq<Sym<L>>, t: seq<Sym<L>>, name: L)
    requires Mark(name) !in s
    ensures Find(s + t, name) == match Find(t, name) case Some(i) => Some(|s| + i) case None => None
  {
    if s == [] {
      assert s + t == t;
    } else {
      assert (s + t)[1..] == s[1..] + t;
      FindSkips(s[1..], t, name);
    }
  }

  /** Runs a program whose jumps name labels: a jump continues at the first later place of its
      label, and a label does nothing. */
  ghost function SymExec<L>(s: seq<Sym<L>>, mem: seq<Byte>, a: nat, m: seq<nat>): Outcome
    requires |m| == MEM_WORDS
    decreases |s|, 0
  {
    if s == [] then OutOfBounds
    else
      var rest := s[1..];
      match s[0]
      case Mark(_) => SymExec(rest, mem, a, m)
      case Jump(name) => SymJump(rest, name, mem, a, m)
      case Plain(ins) =>
        match ins.code
        case LdAbs =>
          var w := Load(mem, ins.k);
          if w.None? then BadLoad else SymExec(rest, mem, w.value, m)
        case LdMem => if ins.k < MEM_WORDS then SymExec(rest, mem, m[ins.k], m) else BadInstruction
        case St => if ins.k < MEM_WORDS then SymExec(rest, mem, a, m[ins.k := a]) else BadInstruction
        case Ja => SymExec(DropSym(rest, ins.k), mem, a, m)
        case Ret => Returned(ins.k)
        case Jmp(_) => SymExec(DropSym(rest, Branch(ins, a)), mem, a, m)
  }

  ghost function SymJump<L>(rest: seq<Sym<L>>, name: L, mem: seq<Byte>, a: nat, m: seq<nat>): Outcome
    requires |m| == MEM_WORDS
    decreases |rest|, 1
  {
    var at := Find(rest, name);
    if at.None? then OutOfBounds else SymExec(rest[at.value..], mem, a, m)
  }

  function DropSym<L>(s: seq<Sym<L>>, n: nat): seq<Sym<L>> {
    if n <= |s| then s[n..] else []
  }

  // ----- bpf_resolve_jumps -----

  /** What resolution yields, if it succeeds. */
  function Resolve(code: Program): (r: Option<Program>)
    ensures r.Some? ==> |r.value| == |code|
  {
    if code == [] then Some([])
    else
      var rest := Resolve(code[1..]);
      if rest.None? then None
      else match AsSym(code[0])
           case Plain(ins) => Some([ins] + rest.value)
           case Jump(id) =>
             var at := Find(AsSyms(code[1..]), id);
             if at.None? then None else Some([SockFilter(Ja, 0, 0, at.value)] + rest.value)
           case Mark(id) =>
             if Find(AsSyms(code[1..]), id).Some? then None else Some([SockFilter(Ja, 0, 0, 0)] + rest.value)
  }

  /** No label is placed twice and every jump's label lies strictly later. */
  ghost predicate Resolvable<L>(s: seq<Sym<L>>) {
    && (forall i, j :: 0 <= i < j < |s| && s[i].Mark? && s[j].Mark? ==> s[i].name != s[j].name)
    && (forall i :: 0 <= i < |s| && s[i].Jump? ==> Later(s, i))
  }

  ghost predicate Later<L>(s: seq<Sym<L>>, i: nat) {
    i < |s| && s[i].Jump? && exists j :: i < j < |s| && s[j] == Mark(s[i].name)
  }

  lemma {:induction false} FindIff(s: seq<Sym<nat>>, name: nat)
    ensures Find(s, name).Some? <==> Mark(name) in s
  {
    if Mark(name) in s {
      var i :| 0 <= i < |s| && s[i] == Mark(name);
      FindFirst(s, name, i);
    }
  }

  lemma ResolvableStep(s: seq<Sym<nat>>)
    requires s != []
    ensures Resolvable(s) <==>
              && Resolvable(s[1..])
              && (s[0].Mark? ==> Mark(s[0].name) !in s[1..])
              && (s[0].Jump? ==> Mark(s[0].name) in s[1..])
  {
    var t := s[1..];
    if Resolvable(s) {
      forall i | 0 <= i < |t| && t[i].Jump?
        ensures Later(t, i)
      {
        assert Later(s, i + 1);
        var j :| i + 1 < j < |s| && s[j] == Mark(s[i + 1].name);
        assert t[j - 1] == Mark(t[i].name);
      }
      if s[0].Jump? {
        assert Later(s, 0);
      }
    }
    if Resolvable(t) && (s[0].Mark? ==> Mark(s[0].name) !in t) && (s[0].Jump? ==> Mark(s[0].name) in t) {
      forall i | 0 <= i < |s| && s[i].Jump?
        ensures Later(s, i)
      {
        if i == 0 {
          var j :| 0 <= j < |t| && t[j] == Mark(s[0].name);
          assert s[j + 1] == Mark(s[0].name);
        } else {
          assert Later(t, i - 1);
          var j :| i - 1 < j < |t| && t[j] == Mark(t[i - 1].name);
          assert s[j + 1] == Mark(s[i].name);
        }
      }
      forall i, j | 0 <= i < j < |s| && s[i].Mark? && s[j].Mark?
        ensures s[i].name != s[j].name
      {
        assert t[j - 1] == s[j];
        if i > 0 {
          assert t[i - 1] == s[i];
        }
      }
    }
  }

  /** Resolution succeeds exactly on programs whose labels are placed once and ahead of their jumps. */
  lemma {:induction false} ResolveIff(code: Program)
    ensures Resolve(code).Some? <==> Resolvable(AsSyms(code))
  {
    if code != [] {
      ResolveIff(code[1..]);
      ResolvableStep(AsSyms(code));
      assert AsSyms(code)[1..] == AsSyms(code[1..]);
      var first := AsSym(code[0]);
      if !first.Plain? {
        FindIff(AsSyms(code[1..]), first.name);
      }
    }
  }

  lemma {:induction false} ResolveSuffix(code: Program, n: nat)
    requires Resolve(code).Some? && n <= |code|
    ensures Resolve(code[n..]).Some? && Resolve(code[n..]).value == Resolve(code).value[n..]
  {
    if n > 0 {
      ResolveSuffix(code[1..], n - 1);
      assert code[1..][n - 1..] == code[n..];
    }
  }

  /** The resolved program runs exactly like the one with labels. */
  lemma {:induction false} ResolveRuns(code: Program, mem: seq<Byte>, a: nat, m: seq<nat>)
    requires Resolve(code).Some? && |m| == MEM_WORDS
    ensures Exec(Resolve(code).value, mem, a, m) == SymExec(AsSyms(code), mem, a, m)
    decreases |code|, 0
  {
    if code != [] {
      var r, s := Resolve(code).value, AsSyms(code);
      var rest := code[1..];
      ResolveSuffix(code, 1);
      assert r[1..] == Resolve(rest).value;
      assert s[1..] == AsSyms(rest);
      match AsSym(code[0]) {
        case Mark(_) =>
          assert Drop(r[1..], 0) == r[1..];
          ResolveRuns(rest, mem, a, m);
        case Jump(id) =>
          ResolveDrop(rest, Find(AsSyms(rest), id).value, mem, a, m);
        case Plain(ins) =>
          match ins.code {
            case LdAbs =>
              if Load(mem, ins.k).Some? {
                ResolveRuns(rest, mem, Load(mem, ins.k).value, m);
              }
            case LdMem =>
              if ins.k < MEM_WORDS {
                ResolveRuns(rest, mem, m[ins.k], m);
              }
            case St =>
              if ins.k < MEM_WORDS {
                ResolveRuns(rest, mem, a, m[ins.k := a]);
              }
            case Ja => ResolveDrop(rest, ins.k, mem, a, m);
            case Ret =>
            case Jmp(_) => ResolveDrop(rest, Branch(ins, a), mem, a, m);
          }
      }
    }
  }

  lemma {:induction false} ResolveDrop(rest: Program, n: nat, mem: seq<Byte>, a: nat, m: seq<nat>)
    requires Resolve(rest).Some? && |m| == MEM_WORDS
    ensures Exec(Drop(Resolve(rest).value, n), mem, a, m) == SymExec(DropSym(AsSyms(rest), n), mem, a, m)
    decreases |rest|, 1
  {
    if n <= |rest| {
      ResolveSuffix(rest, n);
      assert AsSyms(rest)[n..] == AsSyms(rest[n..]);
      ResolveRuns(rest[n..], mem, a, m);
    }
  }

  // ----- The label table and the in-place pass -----

  class BpfLabels<L(==)> {
    var names: seq<L>
    var locations: seq<nat>
    /** Every label that was ever asked for. */
    ghost var wanted: set<L>

    constructor ()
      ensures Valid() && names == [] && wanted == {}
    {
      names, locations, wanted := [], [], {};
    }

    ghost predicate Valid()
      reads this
    {
      && |names| == |locations| <= LABELS_MAX
      && (forall i, j :: 0 <= i < j < |names| ==> names[i] != names[j])
      && (forall i :: 0 <= i < |locations| ==> locations[i] == UNSET)
      && (forall name :: name in names ==> name in wanted)
    }

    /** bpf_label_id: the index of a label, which is added if it is new and there is room. */
    method LabelId(name: L) returns (id: int)
      requires Valid()
      modifies this
      ensures Valid()
      ensures wanted == old(wanted) + {name}
      ensures id == -1 ==> names == old(names) && name !in names && |names| == LABELS_MAX && |wanted| > LABELS_MAX
      ensures id != -1 ==> 0 <= id < |names| && names[id] == name
      ensures id != -1 ==> names == if name in old(names) then old(names) else old(names) + [name]
    {
      wanted := wanted + {name};
      if |names| == 0 {
        names, locations := [name], [UNSET];
        return 0;
      }
      id := 0;
      while id < |names|
        invariant 0 <= id <= |names| && names == old(names)
        invariant name !in names[..id]
      {
        if name == names[id] {
          return;
        }
        id := id + 1;
      }
      assert names[..|names|] == names;
      if |names| == LABELS_MAX {
        OneMore(names, name, wanted);
        return -1;
      }
      names, locations := names + [name], locations + [UNSET];
    }
  }

  lemma {:induction false} OneMore<L>(names: seq<L>, name: L, wanted: set<L>)
    requires forall i, j :: 0 <= i < j < |names| ==> names[i] != names[j]
    requires name !in names && name in wanted && forall n :: n in names ==> n in wanted
    ensures |wanted| > |names|
  {
    if names != [] {
      var n := |names| - 1;
      assert names[n] in names && names[n] !in names[..n];
      OneMore(names[..n], name, wanted - {names[n]});
    }
  }

  /** Locations recorded after the instructions from `from` on have been handled. */
  ghost predicate Located(locations: seq<nat>, code: Program, from: nat)
    requires from <= |code|
  {
    forall id :: 0 <= id < |locations| ==>
      locations[id] == match Find(AsSyms(code[from..]), id) case Some(i) => from + i case None => UNSET
  }

  lemma LocatedStep(locations: seq<nat>, code: Program, from: nat)
    requires 0 < from <= |code| <= MAX_INSNS && Located(locations, code, from)
    ensures var first := AsSym(code[from - 1]);
            if first.Mark? && first.name < |locations| then Located(locations[first.name := from - 1], code, from - 1)
            else if !first.Mark? then Located(locations, code, from - 1) else true
  {
    var s := AsSyms(code[from - 1..]);
    assert s[1..] == AsSyms(code[from..]);
    assert s[0] == AsSym(code[from - 1]);
  }

  lemma ResolveStep(code: Program, from: nat)
    requires 0 < from <= |code|
    ensures var rest := Resolve(code[from..]);
            var syms := AsSyms(code[from..]);
            Resolve(code[from - 1..]) ==
              if rest.None? then None
              else match AsSym(code[from - 1])
                   case Plain(ins) => Some([ins] + rest.value)
                   case Jump(id) => if Find(syms, id).None? then None else Some([SockFilter(Ja, 0, 0, Find(syms, id).value)] + rest.value)
                   case Mark(id) => if Find(syms, id).Some? then None else Some([SockFilter(Ja, 0, 0, 0)] + rest.value)
  {
    assert code[from - 1..][1..] == code[from..];
  }

  lemma {:induction false} ResolveNone(code: Program, n: nat)
    requires n <= |code| && Resolve(code[n..]).None?
    ensures Resolve(code).None?
  {
    if Resolve(code).Some? {
      ResolveSuffix(code, n);
    }
  }

  /** The state of the backward walk: from `offset` on everything is patched and recorded. */
  ghost predicate Progress(f: Program, code: Program, offset: nat, locations: seq<nat>) {
    && offset <= |code| <= |f| && |code| <= MAX_INSNS
    && f[..offset] == code[..offset]
    && Resolve(code[offset..]).Some? && f[offset..|code|] == Resolve(code[offset..]).value
    && Located(locations, code, offset)
  }

  lemma ProgressStep(f: Program, code: Program, offset: nat, locations: seq<nat>, ins: SockFilter, locations': seq<nat>)
    requires 0 < offset && Progress(f, code, offset, locations)
    requires match AsSym(code[offset - 1])
             case Plain(p) => ins == p && locations' == locations
             case Jump(id) => id < |locations| && locations[id] != UNSET && locations' == locations
                              && ins == SockFilter(Ja, 0, 0, locations[id] - offset)
             case Mark(id) => id < |locations| && locations[id] == UNSET && locations' == locations[id := offset - 1]
                              && ins == SockFilter(Ja, 0, 0, 0)
    ensures Progress(f[offset - 1 := ins], code, offset - 1, locations')
  {
    hide Resolve, Located, Find, AsSym, AsSyms;
    var g, n := f[offset - 1 := ins], |code|;
    ResolveStep(code, offset);
    LocatedStep(locations, code, offset);
    FoundOrNot(locations, code, offset, AsSym(code[offset - 1]));
    assert g[offset - 1..n] == [ins] + f[offset..n];
    assert g[..offset - 1] == f[..offset][..offset - 1] == code[..offset - 1];
  }

  lemma FoundOrNot(locations: seq<nat>, code: Program, from: nat, first: Sym<nat>)
    requires from <= |code| <= MAX_INSNS && Located(locations, code, from)
    ensures !first.Plain? && first.name < |locations| ==>
              var at := Find(AsSyms(code[from..]), first.name);
              if at.Some? then locations[first.name] == from + at.value && locations[first.name] != UNSET
              else locations[first.name] == UNSET
  {
  }

  /** Where the walk gives up there is no resolution. */
  lemma {:induction false} ProgressFails(f: Program, code: Program, offset: nat, locations: seq<nat>)
    requires 0 < offset && Progress(f, code, offset, locations)
    requires forall i :: 0 <= i < |code| && AsSym(code[i]).Mark? ==> code[i].k < |locations|
    requires var first := AsSym(code[offset - 1]);
             || (first.Jump? && (first.name >= |locations| || locations[first.name] == UNSET))
             || (first.Mark? && first.name < |locations| && locations[first.name] != UNSET)
    ensures Resolve(code).None?
  {
    hide Resolve, Located, Find, AsSyms;
    var first := AsSym(code[offset - 1]);
    ResolveStep(code, offset);
    FoundOrNot(locations, code, offset, first);
    if first.Jump? && first.name >= |locations| {
      NoSuchLabel(code, offset, first.name, |locations|);
    }
    ResolveNone(code, offset - 1);
  }

  lemma {:induction false} NoSuchLabel(code: Program, from: nat, id: nat, count: nat)
    requires from <= |code| && id >= count
    requires forall i :: 0 <= i < |code| && AsSym(code[i]).Mark? ==> code[i].k < count
    ensures Find(AsSyms(code[from..]), id).None?
  {
  }

  lemma ProgressStart(f: Program, code: Program, locations: seq<nat>)
    requires code <= f && |code| <= MAX_INSNS
    requires forall i :: 0 <= i < |locations| ==> locations[i] == UNSET
    ensures Progress(f, code, |code|, locations)
  {
    assert code[|code|..] == [];
  }

  /** bpf_resolve_jumps: one backward walk that records label locations and patches jumps in place.  Label
      instructions must carry ids of the table. */
  method ResolveJumps<L(==)>(labels: BpfLabels<L>, filter: array<SockFilter>, len: nat) returns (ret: int)
    requires labels.Valid() && len <= filter.Length
    requires forall i :: 0 <= i < len && AsSym(filter[i]).Mark? ==> filter[i].k < |labels.names|
    modifies filter, labels`locations
    ensures ret == 0 || ret == -1
    ensures ret == 0 <==> len <= MAX_INSNS && Resolve(old(filter[..len])).Some?
    ensures ret == 0 ==> filter[..len] == Resolve(old(filter[..len])).value
    ensures ret == 0 ==> filter[len..] == old(filter[len..])
  {
    hide Progress, Resolve;
    if len > MAX_INSNS {
      return -1;
    }
    ghost var code, before := filter[..len], filter[..];
    var offset := len;
    ProgressStart(filter[..], code, labels.locations);
    while offset > 0
      invariant offset <= len && |labels.locations| == |labels.names|
      invariant Progress(filter[..], code, offset, labels.locations)
      invariant filter[..offset] == before[..offset] && filter[len..] == before[len..]
    {
      var i := offset - 1;
      var ins := filter[i];
      ghost var f := filter[..];
      assert ins == before[i] == code[i];
      if AsSym(ins).Jump? {
        if ins.k >= |labels.names| {
          ProgressFails(f, code, offset, labels.locations);
          return -1;
        }
        if labels.locations[ins.k] == UNSET {
          ProgressFails(f, code, offset, labels.locations);
          return -1;
        }
        LaterLocation(f, code, offset, labels.locations, ins.k);
        ProgressStep(f, code, offset, labels.locations, SockFilter(Ja, 0, 0, labels.locations[ins.k] - offset), labels.locations);
        filter[i] := SockFilter(Ja, 0, 0, labels.locations[ins.k] - offset);
      } else if AsSym(ins).Mark? {
        if labels.locations[ins.k] != UNSET {
          ProgressFails(f, code, offset, labels.locations);
          return -1;
        }
        ProgressStep(f, code, offset, labels.locations, SockFilter(Ja, 0, 0, 0), labels.locations[ins.k := i]);
        labels.locations := labels.locations[ins.k := i];
        filter[i] := SockFilter(Ja, 0, 0, 0);
      } else {
        ProgressStep(f, code, offset, labels.locations, ins, labels.locations);
      }
      assert filter[..] == f[i := filter[i]];
      offset := i;
    }
    ProgressEnd(filter[..], code, labels.locations);
    ret := 0;
  }

  lemma LaterLocation(f: Program, code: Program, offset: nat, locations: seq<nat>, id: nat)
    requires Progress(f, code, offset, locations) && id < |locations| && locations[id] != UNSET
    ensures locations[id] >= offset
  {
  }

  lemma {:induction false} ProgressEnd(f: Program, code: Program, locations: seq<nat>)
    requires Progress(f, code, 0, locations)
    ensures Resolve(code).Some? && f[..|code|] == Resolve(code).value
  {
    assert code[0..] == code;
  }
}
