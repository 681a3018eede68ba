/** Rebuilding a jail from its serialisation, and the round trip through the wire format. */
module Unmarshal {
  import opened Bits
  import opened Machine
  import opened Jail
  import opened Marshal

  // ---------------------------------------------------------------- consuming bytes

  datatype Taken<T> = Short | Taken(value: T, rest: seq<Byte>)

  /** Bytes before the first zero, or all of them. */
  function StrLen(b: seq<Byte>): (n: nat)
    ensures n <= |b| && (n < |b| ==> b[n] == 0)
    ensures forall i :: 0 <= i < n ==> b[i] != 0
  {
    if b == [] || b[0] == 0 then 0 else 1 + StrLen(b[1..])
  }

  function TakeStr(b: seq<Byte>): Taken<CString> {
    var n := StrLen(b);
    if n == |b| then Short
    else
      var s: CString := b[..n];
      Taken(s, b[n + 1..])
  }

  function TakeBytes(n: nat, b: seq<Byte>): Taken<seq<Byte>> {
    if n > |b| then Short else Taken(b[..n], b[n..])
  }

  /** A serialised buffer and the length left in it. */
  class Cursor {
    var rest: seq<Byte>

    constructor (bytes: seq<Byte>)
      ensures rest == bytes
    {
      rest := bytes;
    }

    method ConsumeBytes(length: nat) returns (p: Option<seq<Byte>>)
      modifies this
      ensures var t := TakeBytes(length, old(rest));
              if t.Short? then p == None && rest == old(rest) else p == Some(t.value) && rest == t.rest
    {
      if length > |rest| {
        return None;
      }
      p := Some(rest[..length]);
      rest := rest[length..];
    }

    method ConsumeStr() returns (s: Option<CString>)
      modifies this
      ensures var t := TakeStr(old(rest));
              if t.Short? then s == None && rest == old(rest) else s == Some(t.value) && rest == t.rest
    {
      var n := 0;
      while n < |rest| && rest[n] != 0
        invariant 0 <= n <= |rest| && rest == old(rest)
        invariant StrLen(rest) == n + StrLen(rest[n..])
      {
        assert rest[n..][1..] == rest[n + 1..];
        n := n + 1;
      }
      assert StrLen(rest) == n;
      if n == |rest| {
        return None;
      }
      var p := ConsumeBytes(n + 1);
      assert p.value[..n] == old(rest)[..n];
      s := Some(p.value[..n]);
    }
  }

  // ---------------------------------------------------------------- fixed-width words

  lemma {:induction false} FromLeBound(b: seq<Byte>)
    ensures FromLe(b) < Pow2(8 * |b|)
  {
    if b != [] {
      FromLeBound(b[1..]);
      Pow2Sixteen();
      Pow2Sum(8, 8 * |b[1..]|);
    }
  }

  function Word32(b: seq<Byte>): U32
    requires |b| == 4
  {
    FromLeBound(b);
    Pow2Words();
    FromLe(b)
  }

  function Word64(b: seq<Byte>): U64
    requires |b| == 8
  {
    FromLeBound(b);
    Pow2Words();
    FromLe(b)
  }

  function Words32(b: seq<Byte>): seq<U32>
  {
    if |b| < 4 then [] else [Word32(b[..4])] + Words32(b[4..])
  }

  function Words64(b: seq<Byte>): seq<U64>
  {
    if |b| < 8 then [] else [Word64(b[..8])] + Words64(b[8..])
  }

  function Signed(w: U32): S32 { if w < 0x8000_0000 then w else w - TWO32 }

  // ---------------------------------------------------------------- the stages

  /** A jail being rebuilt and the bytes not yet consumed. */
  datatype Stage =
    | Got(jail: Jail, rest: seq<Byte>)
    | Bad   // refused
    | Wild  // the C code copies from a null pointer or writes past an array

  /** Right after the structure has been copied and its stale pointers dropped. */
  function Unset(i: Image): Jail {
    Jail(i.flags, i.settings, i.supplGidCount, i.filterLen, i.mountsCount, i.fsRulesCount, i.cgroupCount, i.remountMode,
         i.fsRulesFd, i.landlockAbi, None, None, None, None, None, None, None, None, None, None, None, [], [], [], [], [],
         None)
  }

  function TakeUser(i: Image, j: Jail, b: seq<Byte>): Stage {
    if !i.user then Got(j, b)
    else match TakeStr(b) case Short => Bad case Taken(s, rest) => Got(j.(user := Some(s)), rest)
  }

  function TakeGids(i: Image, j: Jail, b: seq<Byte>): Stage {
    if !i.supplGids then Got(j, b)
    else if i.supplGidCount > NGROUPS_MAX then Bad
    else match TakeBytes(4 * i.supplGidCount, b)
    case Short => Bad
    case Taken(s, rest) => Got(j.(supplGids := Some(Words32(s))), rest)
  }

  function TakeChrootdir(i: Image, j: Jail, b: seq<Byte>): Stage {
    if !i.chrootdir then Got(j, b)
    else match TakeStr(b) case Short => Bad case Taken(s, rest) => Got(j.(chrootdir := Some(s)), rest)
  }

  function TakeHostname(i: Image, j: Jail, b: seq<Byte>): Stage {
    if !i.hostname then Got(j, b)
    else match TakeStr(b) case Short => Bad case Taken(s, rest) => Got(j.(hostname := Some(s)), rest)
  }

  function TakeSyscallTable(i: Image, j: Jail, b: seq<Byte>): Stage {
    if !i.altSyscallTable then Got(j, b)
    else match TakeStr(b) case Short => Bad case Taken(s, rest) => Got(j.(altSyscallTable := Some(s)), rest)
  }

  function TakeFilter(i: Image, j: Jail, b: seq<Byte>): Stage {
    if SeccompFilter !in i.flags || i.filterLen == 0 then Got(j, b)
    else if i.filterLen > USHRT_MAX then Bad
    else match TakeBytes(8 * i.filterLen, b)
    case Short => Bad
    case Taken(s, rest) => Got(j.(filterProg := Some(Words64(s))), rest)
  }

  function TakeData(present: bool, b: seq<Byte>): Taken<Option<CString>> {
    if !present then Taken(None, b)
    else match TakeStr(b) case Short => Short case Taken(s, rest) => Taken(Some(s), rest)
  }

  function TakeMount(b: seq<Byte>): Taken<Mount> {
    match TakeStr(b) case Short => Short case Taken(src, b1) =>
    match TakeStr(b1) case Short => Short case Taken(dest, b2) =>
    match TakeStr(b2) case Short => Short case Taken(fstype, b3) =>
    match TakeBytes(4, b3) case Short => Short case Taken(hasData, b4) =>
    match TakeData(FromLe(hasData) != 0, b4) case Short => Short case Taken(d, b5) =>
    match TakeBytes(8, b5) case Short => Short case Taken(flags, b6) =>
    Taken(Mount(src, dest, fstype, d, Word64(flags)), b6)
  }

  /** The next `n` mounts, each requested again from the jail. */
  function TakeMounts(n: nat, j: Jail, b: seq<Byte>): Stage
    requires j.mountsCount + n < TWO64
    decreases n
  {
    if n == 0 then Got(j, b)
    else match TakeMount(b)
    case Short => Bad
    case Taken(m, rest) =>
      match WithMount(j, m.src, m.dest, m.fstype, m.flags, m.data)
      case None => Bad
      case Some(j') => TakeMounts(n - 1, j', rest)
  }

  function TakeCgroups(n: nat, j: Jail, b: seq<Byte>): Stage
    requires j.cgroupCount + n < TWO64
    decreases n
  {
    if n == 0 then Got(j, b)
    else match TakeStr(b)
    case Short => Bad
    case Taken(s, rest) =>
      if j.cgroupCount >= MAX_CGROUPS then Wild
      else TakeCgroups(n - 1, j.(cgroups := j.cgroups + [s], cgroupCount := j.cgroupCount + 1), rest)
  }

  function TakeRules(k: Kernel, n: nat, j: Jail, b: seq<Byte>): Stage
    requires j.fsRulesCount + n < TWO64
    decreases n
  {
    if n == 0 then Got(j, b)
    else match TakeStr(b) case Short => Bad case Taken(path, b1) =>
    match TakeBytes(8, b1) case Short => Wild case Taken(flags, b2) =>
    if Word64(flags) == 0 then Bad else TakeRules(k, n - 1, WithFsRule(k, j, FsRule(path, Word64(flags))), b2)
  }

  function TakeRulesFd(j: Jail, b: seq<Byte>): Stage {
    match TakeBytes(4, b)
    case Short => Wild
    case Taken(s, rest) =>
      var fd := Signed(Word32(s));
      if fd == 0 then Bad else Got(j.(fsRulesFd := fd), rest)
  }

  function TakePolicyPath(i: Image, j: Jail, b: seq<Byte>): Stage {
    if !i.seccompPolicyPath then Got(j, b)
    else match TakeStr(b) case Short => Bad case Taken(s, rest) => Got(j.(seccompPolicyPath := Some(s)), rest)
  }

  function TakeNames(i: Image, j: Jail, b: seq<Byte>): Stage {
    match TakeChrootdir(i, j, b) case Bad => Bad case Wild => Wild case Got(j1, b1) =>
    match TakeHostname(i, j1, b1) case Bad => Bad case Wild => Wild case Got(j2, b2) =>
    TakeSyscallTable(i, j2, b2)
  }

  /** What the pointers of the structure referred to. */
  function TakePointed(i: Image, j: Jail, b: seq<Byte>): Stage {
    match TakeUser(i, j, b) case Bad => Bad case Wild => Wild case Got(j1, b1) =>
    match TakeGids(i, j1, b1) case Bad => Bad case Wild => Wild case Got(j2, b2) =>
    match TakeNames(i, j2, b2) case Bad => Bad case Wild => Wild case Got(j3, b3) =>
    TakeFilter(i, j3, b3)
  }

  /** The lists, each with its counter started again from zero. */
  function TakeLists(k: Kernel, i: Image, j: Jail, b: seq<Byte>): Stage {
    match TakeMounts(i.mountsCount, j.(mountsCount := 0), b) case Bad => Bad case Wild => Wild case Got(j1, b1) =>
    match TakeCgroups(i.cgroupCount, j1.(cgroupCount := 0), b1) case Bad => Bad case Wild => Wild case Got(j2, b2) =>
    match TakeRules(k, i.fsRulesCount, j2.(fsRulesCount := 0), b2) case Bad => Bad case Wild => Wild case Got(j3, b3) =>
    match TakeRulesFd(j3, b3) case Bad => Bad case Wild => Wild case Got(j4, b4) =>
    TakePolicyPath(i, j4, b4)
  }

  function Rebuild(l: Layout, k: Kernel, b: seq<Byte>): Stage {
    if |b| < l.size then Bad
    else
      var i := l.decode(b[..l.size]);
      match TakePointed(i, Unset(i), b[l.size..]) case Bad => Bad case Wild => Wild case Got(j, rest) =>
      TakeLists(k, i, j, rest)
  }

  // ---------------------------------------------------------------- the round trip

  lemma TakesStr(s: CString, t: seq<Byte>)
    ensures TakeStr(Str(s) + t) == Taken(s, t)
  {
    var b := Str(s) + t;
    var n := StrLen(b);
    assert b[|s|] == 0;
    assert forall i :: 0 <= i < |s| ==> b[i] == s[i];
    assert n == |s|;
    assert b[..n] == s && b[n + 1..] == t;
  }

  lemma TakesBytes(s: seq<Byte>, t: seq<Byte>)
    ensures TakeBytes(|s|, s + t) == Taken(s, t)
  {
    assert (s + t)[..|s|] == s && (s + t)[|s|..] == t;
  }

  lemma {:induction false} TakesWord32(v: U32)
    ensures Word32(LeBytes(v, 4)) == v
  {
    Pow2Words();
    LeRoundTrip(v, 4);
  }

  lemma {:induction false} TakesWord64(v: U64)
    ensures Word64(LeBytes(v, 8)) == v
  {
    Pow2Words();
    LeRoundTrip(v, 8);
  }

  lemma {:induction false} TakesWords32(ws: seq<U32>)
    ensures |Words(ws, 4)| == 4 * |ws| && Words32(Words(ws, 4)) == ws
  {
    if ws != [] {
      TakesWords32(ws[1..]);
      TakesWord32(ws[0]);
      TakesBytes(LeBytes(ws[0], 4), Words(ws[1..], 4));
    }
  }

  lemma {:induction false} TakesWords64(ws: seq<U64>)
    ensures |Words(ws, 8)| == 8 * |ws| && Words64(Words(ws, 8)) == ws
  {
    if ws != [] {
      TakesWords64(ws[1..]);
      TakesWord64(ws[0]);
      TakesBytes(LeBytes(ws[0], 8), Words(ws[1..], 8));
    }
  }

  lemma TakesMount(m: Mount, t: seq<Byte>)
    ensures TakeMount(MountBytes(m) + t) == Taken(m, t)
  {
    hide TakeStr, TakeBytes, Str, FromLe, LeBytes, StrLen;
    var flags := LeBytes(m.flags, 8);
    var has := LeBytes(if m.data.Some? then 1 else 0, 4);
    var b5 := flags + t;
    var b4 := OptStr(m.data) + b5;
    var b3 := has + b4;
    var b2 := Str(m.fstype) + b3;
    var b1 := Str(m.dest) + b2;
    assert MountBytes(m) + t == Str(m.src) + b1;
    TakesStr(m.src, b1);
    TakesStr(m.dest, b2);
    TakesStr(m.fstype, b3);
    TakesBytes(has, b4);
    Pow2Words();
    LeRoundTrip(if m.data.Some? then 1 else 0, 4);
    if m.data.Some? {
      TakesStr(m.data.value, b5);
    } else {
      assert b4 == b5;
    }
    TakesBytes(flags, t);
    TakesWord64(m.flags);
  }

  /** Requesting settled mounts again records them as they were. */
  lemma {:induction false} TakesMounts(ms: seq<Mount>, j: Jail, t: seq<Byte>)
    requires j.mountsCount + |ms| < TWO64
    requires forall i :: 0 <= i < |ms| ==> Settled(ms[i])
    ensures TakeMounts(|ms|, j, MountsBytes(ms) + t)
         == Got(j.(mounts := j.mounts + ms, mountsCount := j.mountsCount + |ms|,
                   flags := if ms == [] || EnterVfs in j.flags then j.flags else j.flags + {Vfs}), t)
    decreases |ms|
  {
    hide TakeMount, MountBytes;
    if ms == [] {
      assert MountsBytes(ms) + t == t;
      assert j.mounts + ms == j.mounts;
    } else {
      var m := ms[0];
      var rest := MountsBytes(ms[1..]) + t;
      assert MountsBytes(ms) + t == MountBytes(m) + rest;
      TakesMount(m, rest);
      assert Settled(m);
      var j' := WithMount(j, m.src, m.dest, m.fstype, m.flags, m.data).value;
      assert j'.mounts == j.mounts + [m];
      TakesMounts(ms[1..], j', t);
      assert j.mounts + [m] + ms[1..] == j.mounts + ms;
    }
  }

  lemma {:induction false} TakesCgroups(cs: seq<CString>, j: Jail, t: seq<Byte>)
    requires j.cgroupCount + |cs| <= MAX_CGROUPS
    ensures TakeCgroups(|cs|, j, StrsBytes(cs) + t)
         == Got(j.(cgroups := j.cgroups + cs, cgroupCount := j.cgroupCount + |cs|), t)
    decreases |cs|
  {
    hide TakeStr, Str;
    if cs == [] {
      assert StrsBytes(cs) + t == t;
      assert j.cgroups + cs == j.cgroups;
    } else {
      var rest := StrsBytes(cs[1..]) + t;
      assert StrsBytes(cs) + t == Str(cs[0]) + rest;
      TakesStr(cs[0], rest);
      TakesCgroups(cs[1..], j.(cgroups := j.cgroups + [cs[0]], cgroupCount := j.cgroupCount + 1), t);
      assert j.cgroups + [cs[0]] + cs[1..] == j.cgroups + cs;
    }
  }

  /** A jail after several filesystem rules. */
  function WithRules(k: Kernel, j: Jail, rs: seq<FsRule>): Jail
    requires j.fsRulesCount + |rs| < TWO64
  {
    var added := j.(fsRules := j.fsRules + rs);
    (if j.fsRulesCount == 0 && rs != [] then WithRuleset(k, added) else added).(fsRulesCount := j.fsRulesCount + |rs|)
  }

  predicate Granting(rs: seq<FsRule>) { forall i :: 0 <= i < |rs| ==> rs[i].landlockFlags != 0 }

  lemma {:induction false} TakesRule(k: Kernel, n: nat, r: FsRule, j: Jail, t: seq<Byte>)
    requires n > 0 && j.fsRulesCount + n < TWO64
    ensures TakeRules(k, n, j, RuleBytes(r) + t)
         == if r.landlockFlags == 0 then Bad else TakeRules(k, n - 1, WithFsRule(k, j, r), t)
  {
    hide TakeStr, TakeBytes, Str, LeBytes;
    var b1 := LeBytes(r.landlockFlags, 8) + t;
    assert RuleBytes(r) + t == Str(r.path) + b1;
    TakesStr(r.path, b1);
    TakesBytes(LeBytes(r.landlockFlags, 8), t);
    TakesWord64(r.landlockFlags);
  }

  /** Rules come back in order, unless one of them grants nothing: that one is refused. */
  lemma {:induction false} TakesRules(k: Kernel, rs: seq<FsRule>, j: Jail, t: seq<Byte>)
    requires j.fsRulesCount + |rs| < TWO64
    ensures TakeRules(k, |rs|, j, RulesBytes(rs) + t) == if Granting(rs) then Got(WithRules(k, j, rs), t) else Bad
    decreases |rs|
  {
    hide RuleBytes, TakeStr, TakeBytes;
    if rs == [] {
      assert RulesBytes(rs) + t == t;
      assert j.fsRules + rs == j.fsRules;
    } else {
      var rest := RulesBytes(rs[1..]) + t;
      assert RulesBytes(rs) + t == RuleBytes(rs[0]) + rest;
      TakesRule(k, |rs|, rs[0], j, rest);
      if rs[0].landlockFlags != 0 {
        assert Granting(rs) <==> Granting(rs[1..]) by {
          assert forall i :: 1 <= i < |rs| ==> rs[i] == rs[1..][i - 1];
        }
        TakesRules(k, rs[1..], WithFsRule(k, j, rs[0]), t);
        assert j.fsRules + [rs[0]] + rs[1..] == j.fsRules + rs;
      }
    }
  }

  lemma TakesRulesFd(fd: S32, j: Jail, t: seq<Byte>)
    ensures TakeRulesFd(j, FdBytes(fd) + t) == if fd == 0 then Bad else Got(j.(fsRulesFd := fd), t)
  {
    TakesBytes(FdBytes(fd), t);
    TakesWord32(if fd < 0 then fd + TWO32 else fd);
  }

  /** What a jail must look like for the receiving side to accept it. */
  predicate Restorable(j: Jail) {
    (j.supplGids.Some? ==> j.supplGidCount <= NGROUPS_MAX) && Granting(j.fsRules) && j.fsRulesFd != 0
  }

  /** The structure announces a filter that the jail does not hold: nothing is written for it, and yet read. */
  predicate Torn(j: Jail) { SeccompFilter in j.flags && j.filterLen > 0 && j.filterProg.None? }

  /** The program travels only when the filter flag is set, and an empty one does not travel. */
  function SentFilter(j: Jail): Option<seq<U64>> {
    if SeccompFilter in j.flags && j.filterLen > 0 then j.filterProg else None
  }

  /** The jail the receiving side ends up with. */
  function Restored(j: Jail): Jail {
    j.(pidFilePath := None, uidmap := None, gidmap := None, preloadPath := None, filename := None,
       filterProg := SentFilter(j), remounts := [], hooks := [])
  }

  /** Everything the structure points to, restored onto the bare structure. */
  function Pointing(j: Jail): Jail {
    Unset(ImageOf(j)).(user := j.user, supplGids := j.supplGids, chrootdir := j.chrootdir, hostname := j.hostname,
                       altSyscallTable := j.altSyscallTable, filterProg := SentFilter(j))
  }

  lemma TakesGids(j: Jail, j0: Jail, t: seq<Byte>)
    requires j.supplGids.Some? ==> |j.supplGids.value| == j.supplGidCount
    requires j0.supplGids == None
    ensures TakeGids(ImageOf(j), j0, GidBytes(j) + t)
         == if j.supplGids.Some? && j.supplGidCount > NGROUPS_MAX then Bad else Got(j0.(supplGids := j.supplGids), t)
  {
    if j.supplGids.Some? {
      TakesWords32(j.supplGids.value);
      TakesBytes(GidBytes(j), t);
    } else {
      assert [] + t == t;
    }
  }

  lemma TakesFilter(k: Kernel, j: Jail, j0: Jail, t: seq<Byte>)
    requires Coherent(k, j) && !Torn(j) && j0.filterProg == None
    ensures TakeFilter(ImageOf(j), j0, FilterBytes(j) + t) == Got(j0.(filterProg := SentFilter(j)), t)
  {
    if SeccompFilter in j.flags && j.filterProg.Some? {
      TakesWords64(j.filterProg.value);
      TakesBytes(FilterBytes(j), t);
      if j.filterLen == 0 {
        assert FilterBytes(j) + t == t;
      }
    } else {
      assert [] + t == t;
    }
  }

  lemma TakesOptStr(s: Option<CString>, t: seq<Byte>)
    ensures s.Some? ==> TakeStr(OptStr(s) + t) == Taken(s.value, t)
    ensures s.None? ==> OptStr(s) + t == t
  {
    if s.Some? {
      TakesStr(s.value, t);
    }
  }

  lemma TakesUser(j: Jail, t: seq<Byte>)
    ensures TakeUser(ImageOf(j), Unset(ImageOf(j)), OptStr(j.user) + t) == Got(Unset(ImageOf(j)).(user := j.user), t)
  {
    hide TakeStr, OptStr;
    TakesOptStr(j.user, t);
  }

  lemma TakesNames(j: Jail, j0: Jail, t: seq<Byte>)
    requires j0.chrootdir == None && j0.hostname == None && j0.altSyscallTable == None
    ensures TakeNames(ImageOf(j), j0, OptStr(j.chrootdir) + (OptStr(j.hostname) + (OptStr(j.altSyscallTable) + t)))
         == Got(j0.(chrootdir := j.chrootdir, hostname := j.hostname, altSyscallTable := j.altSyscallTable), t)
  {
    hide TakeStr, OptStr;
    var t2 := OptStr(j.altSyscallTable) + t;
    TakesOptStr(j.chrootdir, OptStr(j.hostname) + t2);
    TakesOptStr(j.hostname, t2);
    TakesOptStr(j.altSyscallTable, t);
  }

  lemma TakesPointed(k: Kernel, j: Jail, t: seq<Byte>)
    requires Coherent(k, j) && !Torn(j)
    ensures TakePointed(ImageOf(j), Unset(ImageOf(j)), Concat(Pointed(j)) + t)
         == if j.supplGids.Some? && j.supplGidCount > NGROUPS_MAX then Bad else Got(Pointing(j), t)
  {
    hide OptStr, GidBytes, FilterBytes, TakeUser, TakeGids, TakeNames, TakeFilter, Concat, Coherent;
    var t5 := FilterBytes(j) + t;
    var t2 := OptStr(j.chrootdir) + (OptStr(j.hostname) + (OptStr(j.altSyscallTable) + t5));
    SixPieces(Pointed(j), t);
    TakesUser(j, GidBytes(j) + t2);
    var j1 := Unset(ImageOf(j)).(user := j.user);
    TakesGids(j, j1, t2) by { CoherentGids(k, j); }
    var j2 := j1.(supplGids := j.supplGids);
    TakesNames(j, j2, t5);
    TakesFilter(k, j, j2.(chrootdir := j.chrootdir, hostname := j.hostname, altSyscallTable := j.altSyscallTable), t);
  }

  lemma CoherentGids(k: Kernel, j: Jail)
    requires Coherent(k, j)
    ensures j.supplGids.Some? ==> |j.supplGids.value| == j.supplGidCount
  {
  }

  lemma {:induction false} SixPieces(ps: seq<seq<Byte>>, t: seq<Byte>)
    requires |ps| == 6
    ensures Concat(ps) + t == ps[0] + (ps[1] + (ps[2] + (ps[3] + (ps[4] + (ps[5] + t)))))
  {
    Peel(ps, t);
    Peel(ps[1..], t);
    FourPieces(ps[2..], t);
  }

  lemma {:induction false} FourPieces(ps: seq<seq<Byte>>, t: seq<Byte>)
    requires |ps| == 4
    ensures Concat(ps) + t == ps[0] + (ps[1] + (ps[2] + (ps[3] + t)))
  {
    Peel(ps, t);
    Peel(ps[1..], t);
    Peel(ps[2..], t);
    Peel(ps[3..], t);
    assert Concat([]) + t == t;
  }

  lemma {:induction false} Peel(ps: seq<seq<Byte>>, t: seq<Byte>)
    requires ps != []
    ensures Concat(ps) + t == ps[0] + (Concat(ps[1..]) + t)
  {
  }

  /** Unmarshalling the mounts, the control groups and the rules. */
  lemma {:induction false} TakesMountsAgain(k: Kernel, j: Jail, t: seq<Byte>)
    requires Coherent(k, j)
    ensures TakeMounts(j.mountsCount, Pointing(j).(mountsCount := 0), MountsBytes(j.mounts) + t)
         == Got(Pointing(j).(mounts := j.mounts), t)
  {
    hide MountsBytes, TakeMounts;
    TakesMounts(j.mounts, Pointing(j).(mountsCount := 0), t);
    assert [] + j.mounts == j.mounts;
    assert j.mounts == [] || EnterVfs in j.flags || j.flags + {Vfs} == j.flags;
  }

  lemma {:induction false} TakesCgroupsAgain(k: Kernel, j: Jail, j0: Jail, t: seq<Byte>)
    requires Coherent(k, j) && j0.cgroups == [] && j0.cgroupCount == j.cgroupCount
    ensures TakeCgroups(j.cgroupCount, j0.(cgroupCount := 0), StrsBytes(j.cgroups) + t) == Got(j0.(cgroups := j.cgroups), t)
  {
    hide StrsBytes, TakeCgroups;
    TakesCgroups(j.cgroups, j0.(cgroupCount := 0), t);
    assert [] + j.cgroups == j.cgroups;
  }

  lemma TakesRulesAgain(k: Kernel, j: Jail, j0: Jail, t: seq<Byte>) returns (fd: S32)
    requires Coherent(k, j) && j0.fsRules == [] && j0.fsRulesCount == j.fsRulesCount && j0.landlockAbi == j.landlockAbi
    ensures TakeRules(k, j.fsRulesCount, j0.(fsRulesCount := 0), RulesBytes(j.fsRules) + t)
         == if Granting(j.fsRules) then Got(j0.(fsRules := j.fsRules, fsRulesFd := fd), t) else Bad
  {
    hide RulesBytes, TakeRules;
    TakesRules(k, j.fsRules, j0.(fsRulesCount := 0), t);
    assert [] + j.fsRules == j.fsRules;
    fd := WithRules(k, j0.(fsRulesCount := 0), j.fsRules).fsRulesFd;
  }

  lemma TakesLists(k: Kernel, j: Jail)
    requires Coherent(k, j)
    ensures TakeLists(k, ImageOf(j), Pointing(j), Concat(Lists(j)))
         == if Granting(j.fsRules) && j.fsRulesFd != 0 then Got(Restored(j), []) else Bad
  {
    hide OptStr, MountsBytes, StrsBytes, RulesBytes, FdBytes, TakeMounts, TakeCgroups, TakeRules, TakeRulesFd, Concat, TakeStr, Coherent;
    var t3 := FdBytes(j.fsRulesFd) + (OptStr(j.seccompPolicyPath) + []);
    var t2 := RulesBytes(j.fsRules) + t3;
    var t1 := StrsBytes(j.cgroups) + t2;
    FivePieces(Lists(j));
    TakesMountsAgain(k, j, t1);
    var j1 := Pointing(j).(mounts := j.mounts);
    TakesCgroupsAgain(k, j, j1, t2);
    var j2 := j1.(cgroups := j.cgroups);
    var fd := TakesRulesAgain(k, j, j2, t3);
    var j3 := j2.(fsRules := j.fsRules, fsRulesFd := fd);
    TakesRulesFd(j.fsRulesFd, j3, OptStr(j.seccompPolicyPath) + []);
    TakesOptStr(j.seccompPolicyPath, []);
    assert j3.(fsRulesFd := j.fsRulesFd, seccompPolicyPath := j.seccompPolicyPath) == Restored(j);
  }

  lemma {:induction false} FivePieces(ps: seq<seq<Byte>>)
    requires |ps| == 5
    ensures Concat(ps) == ps[0] + (ps[1] + (ps[2] + (ps[3] + (ps[4] + []))))
  {
    assert Concat(ps) + [] == Concat(ps);
    Peel(ps, []);
    FourPieces(ps[1..], []);
  }

  /** A filter that is announced is read, whatever the bytes are. */
  lemma FilterIsRead(l: Layout, k: Kernel, b: seq<Byte>)
    requires |b| >= l.size && Rebuild(l, k, b).Got?
    requires var i := l.decode(b[..l.size]); SeccompFilter in i.flags && i.filterLen > 0
    ensures Rebuild(l, k, b).jail.filterProg.Some?
  {
    hide TakeMounts, TakeCgroups, TakeRules, TakeUser, TakeGids, TakeNames, TakeStr, TakeBytes;
    var i := l.decode(b[..l.size]);
    var t := TakePointed(i, Unset(i), b[l.size..]);
    assert t.Got? && t.jail.filterProg.Some?;
    ListsKeepFilter(k, i, t.jail, t.rest);
  }

  lemma ListsKeepFilter(k: Kernel, i: Image, j: Jail, b: seq<Byte>)
    requires TakeLists(k, i, j, b).Got?
    ensures TakeLists(k, i, j, b).jail.filterProg == j.filterProg
  {
    hide TakeMounts, TakeCgroups, TakeRules, TakeStr, TakeBytes;
    MountsOnly(i.mountsCount, j.(mountsCount := 0), b);
    var t1 := TakeMounts(i.mountsCount, j.(mountsCount := 0), b);
    CgroupsOnly(i.cgroupCount, t1.jail.(cgroupCount := 0), t1.rest);
    var t2 := TakeCgroups(i.cgroupCount, t1.jail.(cgroupCount := 0), t1.rest);
    RulesOnly(k, i.fsRulesCount, t2.jail.(fsRulesCount := 0), t2.rest);
  }

  /** Reading mounts changes nothing but the mounts, their counter and the mount namespace flag. */
  lemma {:induction false} MountsOnly(n: nat, j: Jail, b: seq<Byte>)
    requires j.mountsCount + n < TWO64
    ensures var t := TakeMounts(n, j, b);
            t.Got? ==> t.jail == j.(mounts := t.jail.mounts, mountsCount := t.jail.mountsCount, flags := t.jail.flags)
                       && (CoherentMounts(j) ==> CoherentMounts(t.jail))
    decreases n
  {
    hide TakeMount, CoherentMounts;
    if n > 0 {
      var t := TakeMount(b);
      if t.Taken? {
        var m := t.value;
        var r := WithMount(j, m.src, m.dest, m.fstype, m.flags, m.data);
        if r.Some? {
          MountKeepsCoherent(j, m);
          MountsOnly(n - 1, r.value, t.rest);
        }
      }
    }
  }

  lemma MountKeepsCoherent(j: Jail, m: Mount)
    requires j.mountsCount < TWO64 - 1
    ensures var r := WithMount(j, m.src, m.dest, m.fstype, m.flags, m.data);
            CoherentMounts(j) && r.Some? ==> CoherentMounts(r.value)
  {
    hide Settled;
    MountIsSettled(j, m.src, m.dest, m.fstype, m.flags, m.data);
  }

  lemma {:induction false} CgroupsOnly(n: nat, j: Jail, b: seq<Byte>)
    requires j.cgroupCount + n < TWO64
    ensures var t := TakeCgroups(n, j, b);
            t.Got? ==> t.jail == j.(cgroups := t.jail.cgroups, cgroupCount := t.jail.cgroupCount)
                       && (j.cgroupCount == |j.cgroups| <= MAX_CGROUPS ==> t.jail.cgroupCount == |t.jail.cgroups| <= MAX_CGROUPS)
    decreases n
  {
    hide TakeStr;
    if n > 0 {
      var t := TakeStr(b);
      if t.Taken? && j.cgroupCount < MAX_CGROUPS {
        CgroupsOnly(n - 1, j.(cgroups := j.cgroups + [t.value], cgroupCount := j.cgroupCount + 1), t.rest);
      }
    }
  }

  lemma {:induction false} RulesOnly(k: Kernel, n: nat, j: Jail, b: seq<Byte>)
    requires j.fsRulesCount + n < TWO64
    ensures var t := TakeRules(k, n, j, b);
            t.Got? ==> t.jail == j.(fsRules := t.jail.fsRules, fsRulesCount := t.jail.fsRulesCount,
                                    fsRulesFd := t.jail.fsRulesFd, landlockAbi := t.jail.landlockAbi)
                       && (CoherentRules(k, j) ==> CoherentRules(k, t.jail))
    decreases n
  {
    hide TakeStr;
    if n > 0 {
      var t := TakeStr(b);
      if t.Taken? {
        var u := TakeBytes(8, t.rest);
        if u.Taken? && Word64(u.value) != 0 {
          RulesOnly(k, n - 1, WithFsRule(k, j, FsRule(t.value, Word64(u.value))), u.rest);
        }
      }
    }
  }

  lemma {:induction false} Words32Length(b: seq<Byte>, n: nat)
    requires |b| == 4 * n
    ensures |Words32(b)| == n
  {
    if n > 0 {
      Words32Length(b[4..], n - 1);
    }
  }

  lemma {:induction false} Words64Length(b: seq<Byte>, n: nat)
    requires |b| == 8 * n
    ensures |Words64(b)| == n
  {
    if n > 0 {
      Words64Length(b[8..], n - 1);
    }
  }

  lemma NamesOnly(i: Image, j: Jail, b: seq<Byte>)
    ensures var t := TakeNames(i, j, b);
            t.Got? ==> t.jail == j.(chrootdir := t.jail.chrootdir, hostname := t.jail.hostname,
                                    altSyscallTable := t.jail.altSyscallTable)
  {
    hide TakeStr;
  }

  lemma GidsOnly(i: Image, j: Jail, b: seq<Byte>)
    requires j.supplGids == None
    ensures var t := TakeGids(i, j, b);
            t.Got? ==> t.jail == j.(supplGids := t.jail.supplGids)
                       && (t.jail.supplGids.Some? ==> |t.jail.supplGids.value| == i.supplGidCount)
  {
    hide Words32;
    if i.supplGids && i.supplGidCount <= NGROUPS_MAX && 4 * i.supplGidCount <= |b| {
      Words32Length(b[..4 * i.supplGidCount], i.supplGidCount);
    }
  }

  lemma FilterOnly(i: Image, j: Jail, b: seq<Byte>)
    requires j.filterProg == None
    ensures var t := TakeFilter(i, j, b);
            t.Got? ==> t.jail == j.(filterProg := t.jail.filterProg)
                       && (t.jail.filterProg.Some? ==> |t.jail.filterProg.value| == i.filterLen)
  {
    hide Words64;
    if i.filterLen <= USHRT_MAX && 8 * i.filterLen <= |b| {
      Words64Length(b[..8 * i.filterLen], i.filterLen);
    }
  }

  /** What pointers referred to is restored, with the lengths that the structure announces; nothing else changes. */
  lemma PointedOnly(i: Image, b: seq<Byte>)
    ensures var t := TakePointed(i, Unset(i), b);
            t.Got? ==> t.jail == Unset(i).(user := t.jail.user, supplGids := t.jail.supplGids, chrootdir := t.jail.chrootdir,
                                           hostname := t.jail.hostname, altSyscallTable := t.jail.altSyscallTable,
                                           filterProg := t.jail.filterProg)
                       && (t.jail.supplGids.Some? ==> |t.jail.supplGids.value| == i.supplGidCount)
                       && (t.jail.filterProg.Some? ==> |t.jail.filterProg.value| == i.filterLen)
  {
    hide TakeStr, TakeGids, TakeNames, TakeFilter;
    var t1 := TakeUser(i, Unset(i), b);
    if t1.Got? {
      GidsOnly(i, t1.jail, t1.rest);
      var t2 := TakeGids(i, t1.jail, t1.rest);
      if t2.Got? {
        NamesOnly(i, t2.jail, t2.rest);
        var t3 := TakeNames(i, t2.jail, t2.rest);
        if t3.Got? {
          FilterOnly(i, t3.jail, t3.rest);
        }
      }
    }
  }

  /** Whatever the bytes, a jail that is rebuilt is coherent. */
  lemma RebuiltIsCoherent(l: Layout, k: Kernel, b: seq<Byte>)
    requires Rebuild(l, k, b).Got? && |b| >= l.size && l.decode(b[..l.size]).filterLen <= USHRT_MAX
    ensures Coherent(k, Rebuild(l, k, b).jail)
  {
    hide TakePointed, TakeMounts, TakeCgroups, TakeRules, TakeStr, TakeBytes;
    var i := l.decode(b[..l.size]);
    PointedOnly(i, b[l.size..]);
    var t0 := TakePointed(i, Unset(i), b[l.size..]);
    MountsOnly(i.mountsCount, t0.jail.(mountsCount := 0), t0.rest);
    var t1 := TakeMounts(i.mountsCount, t0.jail.(mountsCount := 0), t0.rest);
    CgroupsOnly(i.cgroupCount, t1.jail.(cgroupCount := 0), t1.rest);
    var t2 := TakeCgroups(i.cgroupCount, t1.jail.(cgroupCount := 0), t1.rest);
    RulesOnly(k, i.fsRulesCount, t2.jail.(fsRulesCount := 0), t2.rest);
  }

  /** The round trip.  A coherent jail comes back as it was, minus what is not sent and with no byte left over, if and
      only if it is restorable and holds the filter it announces; unless it announces one in vain it is refused
      otherwise. */
  lemma RoundTrip(l: Layout, k: Kernel, j: Jail)
    requires Faithful(l) && Coherent(k, j)
    ensures !Torn(j) ==> Rebuild(l, k, Wire(l, j)) == if Restorable(j) then Got(Restored(j), []) else Bad
    ensures Rebuild(l, k, Wire(l, j)) == Got(Restored(j), []) <==> Restorable(j) && !Torn(j)
  {
    hide Coherent, TakePointed, TakeLists, Concat, Pointed, Lists, Pointing;
    WireSplits(l, j);
    if Torn(j) {
      if Rebuild(l, k, Wire(l, j)).Got? {
        FilterIsRead(l, k, Wire(l, j));
      }
    } else {
      TakesPointed(k, j, Concat(Lists(j)));
      TakesLists(k, j);
    }
  }

  lemma WireSplits(l: Layout, j: Jail)
    requires Faithful(l)
    ensures var b := Wire(l, j);
            |b| >= l.size && l.decode(b[..l.size]) == ImageOf(j) && b[l.size..] == Concat(Pointed(j)) + Concat(Lists(j))
  {
    hide Concat, Pointed, Lists;
    var image := l.encode(ImageOf(j));
    var b := Wire(l, j);
    assert |image| == l.size && l.decode(image) == ImageOf(j);
    assert b[..l.size] == image;
    assert b[l.size..] == Concat(Pointed(j)) + Concat(Lists(j));
  }

  // ---------------------------------------------------------------- the stateful reader

  method ReadOptional(cursor: Cursor, present: bool) returns (ok: bool, s: Option<CString>)
    modifies cursor
    ensures var t := TakeData(present, old(cursor.rest));
            ok == t.Taken? && (ok ==> s == t.value && cursor.rest == t.rest)
  {
    if !present {
      return true, None;
    }
    s := cursor.ConsumeStr();
    ok := s.Some?;
  }

  method ReadMount(cursor: Cursor) returns (m: Option<Mount>)
    modifies cursor
    ensures var t := TakeMount(old(cursor.rest));
            m.Some? == t.Taken? && (m.Some? ==> m.value == t.value && cursor.rest == t.rest)
  {
    hide TakeStr, FromLe;
    var src := cursor.ConsumeStr();
    if src.None? { return None; }
    var dest := cursor.ConsumeStr();
    if dest.None? { return None; }
    var fstype := cursor.ConsumeStr();
    if fstype.None? { return None; }
    var hasData := cursor.ConsumeBytes(4);
    if hasData.None? { return None; }
    var ok, data := ReadOptional(cursor, FromLe(hasData.value) != 0);
    if !ok { return None; }
    var flags := cursor.ConsumeBytes(8);
    if flags.None? { return None; }
    return Some(Mount(src.value, dest.value, fstype.value, data, Word64(flags.value)));
  }

  method ReadMounts(j: Minijail, cursor: Cursor, count: U64) returns (ok: bool)
    requires j.jail.mountsCount == 0
    modifies j, cursor
    ensures var t := TakeMounts(count, old(j.jail), old(cursor.rest));
            !t.Wild? && ok == t.Got? && (ok ==> j.jail == t.jail && cursor.rest == t.rest)
  {
    hide TakeMount;
    var i := 0;
    while i < count
      invariant 0 <= i <= count && j.jail.mountsCount == i
      invariant TakeMounts(count - i, j.jail, cursor.rest) == TakeMounts(count, old(j.jail), old(cursor.rest))
    {
      var m := ReadMount(cursor);
      if m.None? { return false; }
      var mounted := j.MountWithData(m.value.src, m.value.dest, m.value.fstype, m.value.flags, m.value.data);
      if !mounted { return false; }
      i := i + 1;
    }
    return true;
  }

  /** How reading ends: done, refused, or outside what C defines. */
  datatype Ending = Done | Refused | Lost

  ghost predicate EndsLike(e: Ending, t: Stage) {
    (e.Done? <==> t.Got?) && (e.Refused? <==> t.Bad?) && (e.Lost? <==> t.Wild?)
  }

  method ReadCgroups(j: Minijail, cursor: Cursor, count: U64) returns (e: Ending)
    requires j.jail.cgroupCount == 0
    modifies j, cursor
    ensures var t := TakeCgroups(count, old(j.jail), old(cursor.rest));
            EndsLike(e, t) && (e.Done? ==> j.jail == t.jail && cursor.rest == t.rest)
  {
    hide TakeStr;
    var i := 0;
    while i < count
      invariant 0 <= i <= count && j.jail.cgroupCount == i
      invariant TakeCgroups(count - i, j.jail, cursor.rest) == TakeCgroups(count, old(j.jail), old(cursor.rest))
    {
      var s := cursor.ConsumeStr();
      if s.None? { return Refused; }
      if i >= MAX_CGROUPS { return Lost; }
      j.jail := j.jail.(cgroups := j.jail.cgroups + [s.value], cgroupCount := j.jail.cgroupCount + 1);
      i := i + 1;
    }
    return Done;
  }

  lemma RuleIsCounted(k: Kernel, j: Jail, r: FsRule)
    requires j.fsRulesCount < TWO64 - 1
    ensures WithFsRule(k, j, r).fsRulesCount == j.fsRulesCount + 1
  {
  }

  method ReadRules(k: Kernel, j: Minijail, cursor: Cursor, count: U64) returns (e: Ending)
    requires j.jail.fsRulesCount == 0
    modifies j, cursor
    ensures var t := TakeRules(k, count, old(j.jail), old(cursor.rest));
            EndsLike(e, t) && (e.Done? ==> j.jail == t.jail && cursor.rest == t.rest)
  {
    hide TakeStr, WithFsRule;
    var i := 0;
    while i < count
      invariant 0 <= i <= count && j.jail.fsRulesCount == i
      invariant TakeRules(k, count - i, j.jail, cursor.rest) == TakeRules(k, count, old(j.jail), old(cursor.rest))
    {
      var path := cursor.ConsumeStr();
      var flags := cursor.ConsumeBytes(8);
      if path.None? { return Refused; }
      if flags.None? { return Lost; }
      if Word64(flags.value) == 0 { return Refused; }
      RuleIsCounted(k, j.jail, FsRule(path.value, Word64(flags.value)));
      j.AddFsRestrictionPath(k, path.value, Word64(flags.value));
      i := i + 1;
    }
    return Done;
  }

  method ReadGids(i: Image, j: Minijail, cursor: Cursor) returns (ok: bool)
    modifies j, cursor
    ensures var t := TakeGids(i, old(j.jail), old(cursor.rest));
            ok == t.Got? && (ok ==> j.jail == t.jail && cursor.rest == t.rest)
  {
    if i.supplGids {
      if i.supplGidCount > NGROUPS_MAX { return false; }
      var gids := cursor.ConsumeBytes(4 * i.supplGidCount);
      if gids.None? { return false; }
      j.jail := j.jail.(supplGids := Some(Words32(gids.value)));
    }
    return true;
  }

  method ReadNames(i: Image, j: Minijail, cursor: Cursor) returns (ok: bool)
    requires j.jail.chrootdir == None && j.jail.hostname == None && j.jail.altSyscallTable == None
    modifies j, cursor
    ensures var t := TakeNames(i, old(j.jail), old(cursor.rest));
            ok == t.Got? && (ok ==> j.jail == t.jail && cursor.rest == t.rest)
  {
    hide TakeStr;
    var name;
    ok, name := ReadOptional(cursor, i.chrootdir);
    if !ok { return; }
    j.jail := j.jail.(chrootdir := name);
    ok, name := ReadOptional(cursor, i.hostname);
    if !ok { return; }
    j.jail := j.jail.(hostname := name);
    ok, name := ReadOptional(cursor, i.altSyscallTable);
    if !ok { return; }
    j.jail := j.jail.(altSyscallTable := name);
  }

  method ReadFilter(i: Image, j: Minijail, cursor: Cursor) returns (ok: bool)
    modifies j, cursor
    ensures var t := TakeFilter(i, old(j.jail), old(cursor.rest));
            ok == t.Got? && (ok ==> j.jail == t.jail && cursor.rest == t.rest)
  {
    if SeccompFilter in i.flags && i.filterLen > 0 {
      if i.filterLen > USHRT_MAX { return false; }
      var program := cursor.ConsumeBytes(8 * i.filterLen);
      if program.None? { return false; }
      j.jail := j.jail.(filterProg := Some(Words64(program.value)));
    }
    return true;
  }

  lemma GidsKeepNames(i: Image, j: Jail, b: seq<Byte>)
    ensures var t := TakeGids(i, j, b);
            t.Got? ==> t.jail == j.(supplGids := t.jail.supplGids)
  {
  }

  method ReadPointed(i: Image, j: Minijail, cursor: Cursor) returns (ok: bool)
    requires j.jail == Unset(i)
    modifies j, cursor
    ensures var t := TakePointed(i, Unset(i), old(cursor.rest));
            ok == t.Got? && (ok ==> j.jail == t.jail && cursor.rest == t.rest)
  {
    hide TakeStr, TakeGids, TakeNames, TakeFilter;
    var user;
    ok, user := ReadOptional(cursor, i.user);
    if !ok { return; }
    j.jail := j.jail.(user := user);
    GidsKeepNames(i, j.jail, cursor.rest);
    ok := ReadGids(i, j, cursor);
    if !ok { return; }
    ok := ReadNames(i, j, cursor);
    if !ok { return; }
    ok := ReadFilter(i, j, cursor);
  }

  method ReadLists(k: Kernel, i: Image, j: Minijail, cursor: Cursor) returns (e: Ending)
    requires j.jail.seccompPolicyPath == None
    requires j.jail.cgroupCount == i.cgroupCount && j.jail.fsRulesCount == i.fsRulesCount
    modifies j, cursor
    ensures var t := TakeLists(k, i, old(j.jail), old(cursor.rest));
            EndsLike(e, t) && (e.Done? ==> j.jail == t.jail && cursor.rest == t.rest)
  {
    hide TakeMounts, TakeCgroups, TakeRules, TakeStr;
    j.jail := j.jail.(mountsCount := 0);
    var ok := ReadMounts(j, cursor, i.mountsCount);
    if !ok { return Refused; }
    j.jail := j.jail.(cgroupCount := 0);
    e := ReadCgroups(j, cursor, i.cgroupCount);
    if !e.Done? { return; }
    j.jail := j.jail.(fsRulesCount := 0);
    e := ReadRules(k, j, cursor, i.fsRulesCount);
    if !e.Done? { return; }
    var fd := cursor.ConsumeBytes(4);
    if fd.None? { return Lost; }
    j.jail := j.jail.(fsRulesFd := Signed(Word32(fd.value)));
    if j.jail.fsRulesFd == 0 { return Refused; }
    if i.seccompPolicyPath {
      var path := cursor.ConsumeStr();
      if path.None? { return Refused; }
      j.jail := j.jail.(seccompPolicyPath := path);
    }
    return Done;
  }

  /** `minijail_unmarshal`: rebuilds the jail in place.  A buffer too short for the structure
      leaves the jail alone; any later refusal leaves no pointer of the sender behind.  Where the C code
      would write past the control groups or copy from a null pointer the reading is lost. */
  method UnmarshalInto(l: Layout, k: Kernel, j: Minijail, serialized: seq<Byte>) returns (e: Ending)
    modifies j
    ensures var t := Rebuild(l, k, serialized); EndsLike(e, t) && (e.Done? ==> j.jail == t.jail)
    ensures e.Refused? && |serialized| < l.size ==> j.jail == old(j.jail)
    ensures e.Refused? && |serialized| >= l.size ==>
              j.jail.user == None && j.jail.supplGids == None && j.jail.chrootdir == None && j.jail.hostname == None
              && j.jail.altSyscallTable == None && j.jail.seccompPolicyPath == None
              && j.jail.cgroupCount == 0 && j.jail.fsRulesCount == 0
  {
    hide TakePointed, TakeLists;
    var cursor := new Cursor(serialized);
    var raw := cursor.ConsumeBytes(l.size);
    if raw.None? {
      return Refused;
    }
    var i := l.decode(raw.value);
    j.jail := Unset(i);
    PointedIsDefined(i, Unset(i), serialized[l.size..]);
    var ok := ReadPointed(i, j, cursor);
    e := Refused;
    if ok {
      PointedOnly(i, serialized[l.size..]);
      e := ReadLists(k, i, j, cursor);
    }
    if e.Refused? {
      j.jail := j.jail.(user := None, supplGids := None, chrootdir := None, hostname := None, altSyscallTable := None,
                        cgroupCount := 0, fsRulesCount := 0, seccompPolicyPath := None);
    }
  }

  lemma PointedIsDefined(i: Image, j: Jail, b: seq<Byte>)
    ensures !TakePointed(i, j, b).Wild?
  {
    hide TakeStr, TakeBytes;
  }

  // ---------------------------------------------------------------- through the pipe

  /** What `minijail_to_fd` writes: the size, then the jail. */
  function Sent(l: Layout, j: Jail): seq<Byte> {
    LeBytes(|Wire(l, j)|, 8) + Wire(l, j)
  }

  /** What `minijail_from_fd` makes of a stream. */
  function Received(l: Layout, k: Kernel, stream: seq<Byte>): Stage {
    if |stream| < 8 then Bad
    else
      var size := Word64(stream[..8]);
      if size > USHRT_MAX || |stream| - 8 < size then Bad else Rebuild(l, k, stream[8..8 + size])
  }

  /** A jail passes through the pipe as it was exactly when it is restorable, holds the filter it announces, and
      its serialisation fits in 65535 bytes, a limit only the receiving side checks. */
  lemma PipeRoundTrip(l: Layout, k: Kernel, j: Jail)
    requires Faithful(l) && Coherent(k, j) && |Wire(l, j)| < TWO64
    ensures !Torn(j) ==>
              Received(l, k, Sent(l, j)) == if Restorable(j) && |Wire(l, j)| <= USHRT_MAX then Got(Restored(j), []) else Bad
    ensures Received(l, k, Sent(l, j)) == Got(Restored(j), []) <==> Restorable(j) && !Torn(j) && |Wire(l, j)| <= USHRT_MAX
  {
    hide Coherent, Restorable, Restored, Rebuild, Wire, LeBytes, FromLe, Torn;
    var stream := Sent(l, j);
    TakesBytes(LeBytes(|Wire(l, j)|, 8), Wire(l, j));
    TakesWord64(|Wire(l, j)|);
    RoundTrip(l, k, j);
    if |Wire(l, j)| <= USHRT_MAX {
      assert stream[8..8 + |Wire(l, j)|] == Wire(l, j);
    }
  }

  /** The same, spelled out: what arrives is the jail without its local paths, maps, remounts and hooks and without a
      filter that is not in use; and it arrives exactly when there are at most 65536 groups, every rule grants something,
      the ruleset descriptor is not 0, an announced filter is there, and at most 65535 bytes are sent. */
  lemma PipeCarries(l: Layout, k: Kernel, j: Jail)
    requires Faithful(l) && Coherent(k, j) && |Wire(l, j)| < TWO64
    ensures var r := Received(l, k, Sent(l, j));
            var used := SeccompFilter in j.flags && j.filterLen > 0;
            && r.Got? && r.rest == []
            && r.jail == j.(pidFilePath := None, uidmap := None, gidmap := None, preloadPath := None, filename := None,
                            remounts := [], hooks := [], filterProg := if used then j.filterProg else None)
            <==>
            && (j.supplGids.Some? ==> |j.supplGids.value| <= 65536)
            && (forall i :: 0 <= i < |j.fsRules| ==> j.fsRules[i].landlockFlags != 0)
            && j.fsRulesFd != 0
            && (used ==> j.filterProg.Some?)
            && |Wire(l, j)| <= 65535
  {
    hide Received, Sent, Wire;
    PipeRoundTrip(l, k, j);
  }
}
