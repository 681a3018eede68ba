/** What an accepted serialisation must look like: whatever bytes arrive, a jail is only rebuilt
    from bytes that spell it, piece by piece and with every announced length kept. */
module Acceptance {
  import opened Bits
  import opened Machine
  import opened Jail
  import opened Marshal
  import opened Unmarshal
  import opened Api

  // ---------------------------------------------------------------- pieces

  /** A string is taken up to the first zero byte, and not at all when there is none. */
  lemma TookStr(b: seq<Byte>)
    ensures TakeStr(b).Short? <==> 0 !in b
    ensures TakeStr(b).Taken? ==> b == TakeStr(b).value + [0] + TakeStr(b).rest && 0 !in TakeStr(b).value
  {
    var n := StrLen(b);
    if n < |b| {
      assert b == b[..n] + [b[n]] + b[n + 1..];
    }
  }

  lemma TookBytes(n: nat, b: seq<Byte>)
    ensures TakeBytes(n, b).Short? <==> n > |b|
    ensures TakeBytes(n, b).Taken? ==> |TakeBytes(n, b).value| == n && b == TakeBytes(n, b).value + TakeBytes(n, b).rest
  {
  }

  lemma {:induction false} Words32Back(b: seq<Byte>, n: nat)
    requires |b| == 4 * n
    ensures Words(Words32(b), 4) == b && |Words32(b)| == n
  {
    if n > 0 {
      Words32Back(b[4..], n - 1);
      LeBytesBack(b[..4]);
      assert Words32(b) == [Word32(b[..4])] + Words32(b[4..]);
      assert Words32(b)[1..] == Words32(b[4..]);
      assert b == b[..4] + b[4..];
    }
  }

  // ---------------------------------------------------------------- what the structure points to

  lemma TookUser(i: Image, j: Jail, b: seq<Byte>)
    requires TakeUser(i, j, b).Got? && j.user == None
    ensures var r := TakeUser(i, j, b);
            b == OptStr(r.jail.user) + r.rest && r.jail == j.(user := r.jail.user) && (r.jail.user.Some? <==> i.user)
  {
    hide TakeStr;
    TookStr(b);
  }

  lemma TookGids(i: Image, j: Jail, b: seq<Byte>)
    requires TakeGids(i, j, b).Got? && j.supplGids == None
    ensures var r := TakeGids(i, j, b);
            && b == GidBytes(r.jail) + r.rest && r.jail == j.(supplGids := r.jail.supplGids)
            && (r.jail.supplGids.Some? <==> i.supplGids)
            && (i.supplGids ==> |r.jail.supplGids.value| == i.supplGidCount <= 65536)
  {
    hide TakeBytes, Words, Words32;
    if i.supplGids {
      TookBytes(4 * i.supplGidCount, b);
      Words32Back(TakeBytes(4 * i.supplGidCount, b).value, i.supplGidCount);
    }
  }

  lemma TookChrootdir(i: Image, j: Jail, b: seq<Byte>)
    requires TakeChrootdir(i, j, b).Got? && j.chrootdir == None
    ensures var r := TakeChrootdir(i, j, b);
            && b == OptStr(r.jail.chrootdir) + r.rest && r.jail == j.(chrootdir := r.jail.chrootdir)
            && (r.jail.chrootdir.Some? <==> i.chrootdir)
  {
    hide TakeStr;
    TookStr(b);
  }

  lemma TookHostname(i: Image, j: Jail, b: seq<Byte>)
    requires TakeHostname(i, j, b).Got? && j.hostname == None
    ensures var r := TakeHostname(i, j, b);
            && b == OptStr(r.jail.hostname) + r.rest && r.jail == j.(hostname := r.jail.hostname)
            && (r.jail.hostname.Some? <==> i.hostname)
  {
    hide TakeStr;
    TookStr(b);
  }

  lemma TookSyscallTable(i: Image, j: Jail, b: seq<Byte>)
    requires TakeSyscallTable(i, j, b).Got? && j.altSyscallTable == None
    ensures var r := TakeSyscallTable(i, j, b);
            && b == OptStr(r.jail.altSyscallTable) + r.rest && r.jail == j.(altSyscallTable := r.jail.altSyscallTable)
            && (r.jail.altSyscallTable.Some? <==> i.altSyscallTable)
  {
    hide TakeStr;
    TookStr(b);
  }

  lemma TookNames(i: Image, j: Jail, b: seq<Byte>)
    requires TakeNames(i, j, b).Got? && j.chrootdir == None && j.hostname == None && j.altSyscallTable == None
    ensures var r := TakeNames(i, j, b);
            var q := r.jail;
            && b == OptStr(q.chrootdir) + (OptStr(q.hostname) + (OptStr(q.altSyscallTable) + r.rest))
            && q == j.(chrootdir := q.chrootdir, hostname := q.hostname, altSyscallTable := q.altSyscallTable)
            && (q.chrootdir.Some? <==> i.chrootdir) && (q.hostname.Some? <==> i.hostname)
            && (q.altSyscallTable.Some? <==> i.altSyscallTable)
  {
    hide TakeChrootdir, TakeHostname, TakeSyscallTable, OptStr;
    TookChrootdir(i, j, b);
    var r1 := TakeChrootdir(i, j, b);
    TookHostname(i, r1.jail, r1.rest);
    var r2 := TakeHostname(i, r1.jail, r1.rest);
    TookSyscallTable(i, r2.jail, r2.rest);
  }

  lemma TookFilter(i: Image, j: Jail, b: seq<Byte>)
    requires TakeFilter(i, j, b).Got? && j.filterProg == None && j.flags == i.flags
    ensures var r := TakeFilter(i, j, b);
            && b == FilterBytes(r.jail) + r.rest && r.jail == j.(filterProg := r.jail.filterProg)
            && (r.jail.filterProg.Some? <==> SeccompFilter in i.flags && i.filterLen > 0)
            && (r.jail.filterProg.Some? ==> |r.jail.filterProg.value| == i.filterLen <= 65535)
  {
    hide TakeBytes, Words, Words64;
    if SeccompFilter in i.flags && i.filterLen > 0 {
      TookBytes(8 * i.filterLen, b);
      WordsBack(TakeBytes(8 * i.filterLen, b).value, i.filterLen);
      Words64Length(TakeBytes(8 * i.filterLen, b).value, i.filterLen);
    }
  }

  /** Every pointer that was not null has its text, every array its announced length. */
  ghost predicate Announced(i: Image, j: Jail) {
    && (j.user.Some? <==> i.user) && (j.supplGids.Some? <==> i.supplGids)
    && (i.supplGids ==> |j.supplGids.value| == i.supplGidCount <= 65536)
    && (j.chrootdir.Some? <==> i.chrootdir) && (j.hostname.Some? <==> i.hostname)
    && (j.altSyscallTable.Some? <==> i.altSyscallTable)
    && (j.filterProg.Some? <==> SeccompFilter in i.flags && i.filterLen > 0)
    && (j.filterProg.Some? ==> |j.filterProg.value| == i.filterLen <= 65535)
  }

  lemma TookPointed(i: Image, b: seq<Byte>)
    requires TakePointed(i, Unset(i), b).Got?
    ensures var r := TakePointed(i, Unset(i), b);
            && b == Concat(Pointed(r.jail)) + r.rest && Announced(i, r.jail)
            && r.jail == Unset(i).(user := r.jail.user, supplGids := r.jail.supplGids, chrootdir := r.jail.chrootdir,
                                   hostname := r.jail.hostname, altSyscallTable := r.jail.altSyscallTable,
                                   filterProg := r.jail.filterProg)
  {
    hide TakeUser, TakeGids, TakeNames, TakeFilter, FilterBytes, GidBytes, Concat;
    var j := Unset(i);
    TookUser(i, j, b);
    var r1 := TakeUser(i, j, b);
    TookGids(i, r1.jail, r1.rest);
    var r2 := TakeGids(i, r1.jail, r1.rest);
    TookNames(i, r2.jail, r2.rest);
    var r3 := TakeNames(i, r2.jail, r2.rest);
    TookFilter(i, r3.jail, r3.rest);
    var r4 := TakeFilter(i, r3.jail, r3.rest);
    GidsStay(r2.jail, r4.jail);
    SixPieces(Pointed(r4.jail), r4.rest);
  }

  lemma GidsStay(j: Jail, q: Jail)
    requires j.supplGids == q.supplGids
    ensures GidBytes(j) == GidBytes(q)
  {
  }

  // ---------------------------------------------------------------- lists

  /** Bytes that spell mounts: any word but zero announces options. */
  ghost predicate Spells(ms: seq<Mount>, b: seq<Byte>)
    decreases |ms|
  {
    if ms == [] then b == []
    else exists has: seq<Byte>, more: seq<Byte> :: SpellsFirst(ms, b, has, more) && Spells(ms[1..], more)
  }

  ghost predicate SpellsFirst(ms: seq<Mount>, b: seq<Byte>, has: seq<Byte>, more: seq<Byte>) {
    && ms != [] && |has| == 4 && (ms[0].data.Some? <==> FromLe(has) != 0)
    && b == Str(ms[0].src)
            + (Str(ms[0].dest) + (Str(ms[0].fstype) + (has + (OptStr(ms[0].data) + (LeBytes(ms[0].flags, 8) + more)))))
  }

  lemma Word64Back(b: seq<Byte>)
    requires |b| == 8
    ensures LeBytes(Word64(b), 8) == b
  {
    LeBytesBack(b);
  }

  lemma {:induction false} TookMount(b: seq<Byte>) returns (has: seq<Byte>)
    requires TakeMount(b).Taken?
    ensures SpellsFirst([TakeMount(b).value], b, has, TakeMount(b).rest)
  {
    hide TakeStr, TakeBytes, FromLe, LeBytes, Word64;
    TookStr(b);
    var b1 := TakeStr(b).rest;
    TookStr(b1);
    var b2 := TakeStr(b1).rest;
    TookStr(b2);
    var b3 := TakeStr(b2).rest;
    TookBytes(4, b3);
    has := TakeBytes(4, b3).value;
    var b4 := TakeBytes(4, b3).rest;
    TookStr(b4);
    var b5 := TakeData(FromLe(has) != 0, b4).rest;
    TookBytes(8, b5);
    Word64Back(TakeBytes(8, b5).value);
    assert b4 == OptStr(TakeMount(b).value.data) + b5;
  }

  function Recorded(ms: seq<Mount>): seq<Mount> {
    if ms == [] then []
    else [ms[0].(data := DefaultData(ms[0].fstype, ms[0].data), flags := DefaultFlags(ms[0].flags))] + Recorded(ms[1..])
  }

  lemma {:induction false} TookMounts(n: nat, j: Jail, b: seq<Byte>) returns (ms: seq<Mount>, text: seq<Byte>)
    requires j.mountsCount + n < TWO64 && TakeMounts(n, j, b).Got?
    ensures var r := TakeMounts(n, j, b);
            && b == text + r.rest && Spells(ms, text) && |ms| == n
            && (forall i :: 0 <= i < n ==> |ms[i].dest| > 0 && ms[i].dest[0] == 47)
            && r.jail == j.(mounts := j.mounts + Recorded(ms), mountsCount := j.mountsCount + n,
                            flags := if n == 0 || EnterVfs in j.flags then j.flags else j.flags + {Vfs})
    decreases n
  {
    hide TakeMount, DefaultData, DefaultFlags, SpellsFirst;
    if n == 0 {
      ms, text := [], [];
      assert j.mounts + [] == j.mounts;
    } else {
      var m, rest := TakeMount(b).value, TakeMount(b).rest;
      var has := TookMount(b);
      var next := WithMount(j, m.src, m.dest, m.fstype, m.flags, m.data).value;
      var ms', text' := TookMounts(n - 1, next, rest);
      ms, text := MountsJoin(b, m, has, rest, ms', text', TakeMounts(n - 1, next, rest).rest);
      assert Recorded(ms) == Recorded([m]) + Recorded(ms') by { RecordedFirst(m, ms'); }
      assert next.mounts == j.mounts + Recorded([m]);
      assert (j.mounts + Recorded([m])) + Recorded(ms') == j.mounts + (Recorded([m]) + Recorded(ms'));
      FlagsOnce(j, next);
    }
  }

  lemma {:induction false} RecordedFirst(m: Mount, ms: seq<Mount>)
    ensures Recorded([m] + ms) == Recorded([m]) + Recorded(ms)
    ensures Recorded([m]) == [m.(data := DefaultData(m.fstype, m.data), flags := DefaultFlags(m.flags))]
  {
    assert ([m] + ms)[1..] == ms && [m][1..] == [];
    assert Recorded([m][1..]) == [];
  }

  lemma FlagsOnce(j: Jail, next: Jail)
    requires next.flags == if EnterVfs in j.flags then j.flags else j.flags + {Vfs}
    ensures (if EnterVfs in next.flags then next.flags else next.flags + {Vfs}) == next.flags
  {
  }

  lemma {:induction false} MountsJoin(b: seq<Byte>, m: Mount, has: seq<Byte>, rest: seq<Byte>, ms': seq<Mount>,
                                      text': seq<Byte>, last: seq<Byte>)
    returns (ms: seq<Mount>, text: seq<Byte>)
    requires SpellsFirst([m], b, has, rest) && rest == text' + last && Spells(ms', text')
    ensures ms == [m] + ms' && b == text + last && Spells(ms, text)
  {
    hide FromLe, LeBytes;
    ms := [m] + ms';
    var head := Str(m.src) + (Str(m.dest) + (Str(m.fstype) + (has + (OptStr(m.data) + LeBytes(m.flags, 8)))));
    text := head + text';
    assert ms[0] == m && ms[1..] == ms';
    assert SpellsFirst(ms, text, has, text');
    assert b == head + rest;
    assert head + (text' + last) == text + last;
  }

  lemma {:induction false} TookCgroups(n: nat, j: Jail, b: seq<Byte>) returns (ss: seq<CString>)
    requires j.cgroupCount + n < TWO64 && TakeCgroups(n, j, b).Got?
    ensures var r := TakeCgroups(n, j, b);
            && b == StrsBytes(ss) + r.rest && |ss| == n && (n > 0 ==> j.cgroupCount + n <= 10)
            && r.jail == j.(cgroups := j.cgroups + ss, cgroupCount := j.cgroupCount + n)
    decreases n
  {
    hide TakeStr;
    if n == 0 {
      ss := [];
      assert j.cgroups + [] == j.cgroups;
    } else {
      TookStr(b);
      var s, rest := TakeStr(b).value, TakeStr(b).rest;
      var next := j.(cgroups := j.cgroups + [s], cgroupCount := j.cgroupCount + 1);
      var ss' := TookCgroups(n - 1, next, rest);
      ss := [s] + ss';
      assert ss[1..] == ss';
      assert (j.cgroups + [s]) + ss' == j.cgroups + ss;
    }
  }

  lemma {:induction false} TookRules(k: Kernel, n: nat, j: Jail, b: seq<Byte>) returns (rs: seq<FsRule>)
    requires j.fsRulesCount + n < TWO64 && TakeRules(k, n, j, b).Got?
    ensures var r := TakeRules(k, n, j, b);
            && b == RulesBytes(rs) + r.rest && |rs| == n && (forall i :: 0 <= i < n ==> rs[i].landlockFlags != 0)
            && r.jail == j.(fsRules := j.fsRules + rs, fsRulesCount := j.fsRulesCount + n, fsRulesFd := r.jail.fsRulesFd,
                            landlockAbi := r.jail.landlockAbi)
    decreases n
  {
    hide TakeStr, TakeBytes, Word64, LeBytes, WithFsRule;
    if n == 0 {
      rs := [];
      assert j.fsRules + [] == j.fsRules;
    } else {
      TookStr(b);
      var path, b1 := TakeStr(b).value, TakeStr(b).rest;
      TookBytes(8, b1);
      var word, b2 := TakeBytes(8, b1).value, TakeBytes(8, b1).rest;
      Word64Back(word);
      var rule := FsRule(path, Word64(word));
      var next := WithFsRule(k, j, rule);
      FsRuleRecords(k, j, rule);
      var rs' := TookRules(k, n - 1, next, b2);
      rs := [rule] + rs';
      assert rs[1..] == rs';
      assert (j.fsRules + [rule]) + rs' == j.fsRules + rs;
    }
  }

  lemma TookRulesFd(j: Jail, b: seq<Byte>)
    requires TakeRulesFd(j, b).Got?
    ensures var r := TakeRulesFd(j, b);
            b == FdBytes(r.jail.fsRulesFd) + r.rest && r.jail.fsRulesFd != 0 && r.jail == j.(fsRulesFd := r.jail.fsRulesFd)
  {
    TookBytes(4, b);
    LeBytesBack(TakeBytes(4, b).value);
  }

  lemma TookPolicyPath(i: Image, j: Jail, b: seq<Byte>)
    requires TakePolicyPath(i, j, b).Got? && j.seccompPolicyPath == None
    ensures var r := TakePolicyPath(i, j, b);
            && b == OptStr(r.jail.seccompPolicyPath) + r.rest && r.jail == j.(seccompPolicyPath := r.jail.seccompPolicyPath)
            && (r.jail.seccompPolicyPath.Some? <==> i.seccompPolicyPath)
  {
    hide TakeStr;
    TookStr(b);
  }

  // ---------------------------------------------------------------- the whole jail

  /** What the lists of a rebuilt jail hold, given the structure `i`, the jail `j0` before them and the mounts read. */
  ghost predicate Listed(i: Image, j0: Jail, j: Jail, ms: seq<Mount>) {
    && |ms| == i.mountsCount && j.mounts == Recorded(ms) && j.mountsCount == i.mountsCount
    && (forall m :: 0 <= m < |ms| ==> |ms[m].dest| > 0 && ms[m].dest[0] == 47)
    && j.flags == (if ms == [] || EnterVfs in i.flags then i.flags else i.flags + {Vfs})
    && |j.cgroups| == j.cgroupCount == i.cgroupCount <= 10
    && |j.fsRules| == j.fsRulesCount == i.fsRulesCount
    && (forall r :: 0 <= r < |j.fsRules| ==> j.fsRules[r].landlockFlags != 0)
    && j.fsRulesFd != 0 && (j.seccompPolicyPath.Some? <==> i.seccompPolicyPath)
    && j == j0.(mounts := j.mounts, mountsCount := j.mountsCount, flags := j.flags, cgroups := j.cgroups,
                cgroupCount := j.cgroupCount, fsRules := j.fsRules, fsRulesCount := j.fsRulesCount,
                fsRulesFd := j.fsRulesFd, landlockAbi := j.landlockAbi, seccompPolicyPath := j.seccompPolicyPath)
  }

  lemma TookLists(k: Kernel, i: Image, j: Jail, b: seq<Byte>) returns (ms: seq<Mount>, text: seq<Byte>)
    requires TakeLists(k, i, j, b).Got? && j.flags == i.flags && j.mounts == [] && j.cgroups == [] && j.fsRules == []
    requires j.seccompPolicyPath == None
    ensures var r := TakeLists(k, i, j, b);
            var q := r.jail;
            && b == text + (StrsBytes(q.cgroups)
                            + (RulesBytes(q.fsRules) + (FdBytes(q.fsRulesFd) + (OptStr(q.seccompPolicyPath) + r.rest))))
            && Spells(ms, text) && Listed(i, j, q, ms)
  {
    hide TakeMounts, TakeCgroups, TakeRules, TakeRulesFd, TakePolicyPath, Recorded, Spells, StrsBytes, RulesBytes, FdBytes;
    var j0 := j.(mountsCount := 0);
    ms, text := TookMounts(i.mountsCount, j0, b);
    var r1 := TakeMounts(i.mountsCount, j0, b);
    var j1 := r1.jail.(cgroupCount := 0);
    var ss := TookCgroups(i.cgroupCount, j1, r1.rest);
    var r2 := TakeCgroups(i.cgroupCount, j1, r1.rest);
    var j2 := r2.jail.(fsRulesCount := 0);
    var rs := TookRules(k, i.fsRulesCount, j2, r2.rest);
    var r3 := TakeRules(k, i.fsRulesCount, j2, r2.rest);
    TookRulesFd(r3.jail, r3.rest);
    var r4 := TakeRulesFd(r3.jail, r3.rest);
    TookPolicyPath(i, r4.jail, r4.rest);
    assert [] + Recorded(ms) == Recorded(ms) && [] + ss == ss && [] + rs == rs;
  }

  lemma PointedStays(j: Jail, q: Jail)
    requires j.user == q.user && j.supplGids == q.supplGids && j.chrootdir == q.chrootdir && j.hostname == q.hostname
    requires j.altSyscallTable == q.altSyscallTable && j.filterProg == q.filterProg
    requires SeccompFilter in j.flags <==> SeccompFilter in q.flags
    ensures Pointed(j) == Pointed(q)
  {
  }

  /** Whatever bytes arrive, a jail is rebuilt only from a structure followed by the texts of that jail in their order:
      the strings, groups and filter that the structure announces, its mounts, control groups and rules in the announced
      number, a ruleset descriptor other than 0 and the policy path.  Everything else of the jail is the structure's. */
  lemma AcceptedIsSpelled(l: Layout, k: Kernel, b: seq<Byte>) returns (ms: seq<Mount>, text: seq<Byte>)
    requires Rebuild(l, k, b).Got?
    ensures |b| >= l.size
    ensures var i, j, rest := l.decode(b[..l.size]), Rebuild(l, k, b).jail, Rebuild(l, k, b).rest;
            && b[l.size..] == Concat(Pointed(j))
                              + (text + (StrsBytes(j.cgroups)
                                         + (RulesBytes(j.fsRules) + (FdBytes(j.fsRulesFd) + (OptStr(j.seccompPolicyPath) + rest)))))
            && Spells(ms, text) && Announced(i, j)
            && Listed(i, Unset(i).(user := j.user, supplGids := j.supplGids, chrootdir := j.chrootdir,
                                   hostname := j.hostname, altSyscallTable := j.altSyscallTable,
                                   filterProg := j.filterProg), j, ms)
  {
    hide TakePointed, TakeLists, Concat, Pointed, StrsBytes, RulesBytes, FdBytes, Spells, Recorded;
    var i := l.decode(b[..l.size]);
    TookPointed(i, b[l.size..]);
    var r := TakePointed(i, Unset(i), b[l.size..]);
    ms, text := TookLists(k, i, r.jail, r.rest);
    PointedStays(r.jail, Rebuild(l, k, b).jail);
  }
}
