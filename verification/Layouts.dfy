/** A memory layout for the jail's structure: every field as a word of eight bytes.  It shows that
    there are faithful layouts, which is all that the round trip asks of the compiler's. */
module Layouts {
  import opened Bits
  import opened Machine
  import opened Jail
  import opened Marshal
  import opened Unmarshal


  function Bit(b: bool): U64 { if b then 1 else 0 }

  function Unsigned(x: S32): U64 { x + 0x8000_0000 }

  const IDENTITY: seq<Flag> :=
    [Uid, Gid, InheritSupplGids, SetSupplGids, KeepSupplGids, UseCaps, CapbsetDrop, SetAmbientCaps, Vfs, EnterVfs,
     Pids]

  const SPACES: seq<Flag> :=
    [Ipc, Uts, Net, EnterNet, NsCgroups, Userns, DisableSetgroups, Seccomp, RemountProcRo, NoNewPrivs, SeccompFilter]

  const FILTERS: seq<Flag> :=
    [SeccompFilterTsync, SeccompFilterLogging, SeccompFilterAllowSpeculation, Chroot, PivotRoot, MountDev, MountTmp,
     DoInit, RunAsInit, PidFile, Cgroups]

  const PROCESS: seq<Flag> :=
    [AltSyscall, ResetSignalMask, ResetSignalHandlers, CloseOpenFds, NewSessionKeyring, ForwardSignals, Setsid,
     UsingMinimalisticMountns, EnableFsRestrictions, EnableProfileFsRestrictions, EnableDefaultRuntime]

  function BitsOf(fs: seq<Flag>, flags: set<Flag>): (ws: seq<U64>)
    ensures |ws| == |fs| && forall k :: 0 <= k < |fs| ==> ws[k] == Bit(fs[k] in flags)
  {
    seq(|fs|, k requires 0 <= k < |fs| => Bit(fs[k] in flags))
  }

  function FlagWords(flags: set<Flag>): (ws: seq<U64>)
    ensures |ws| == 44
  {
    BitsOf(IDENTITY, flags) + (BitsOf(SPACES, flags) + (BitsOf(FILTERS, flags) + BitsOf(PROCESS, flags)))
  }

  function SettingWords(s: Settings): (ws: seq<U64>)
    ensures |ws| == 10
  {
    [s.uid, s.gid, s.usergid, s.caps, s.capBset, Unsigned(s.initpid), Unsigned(s.mountnsFd), Unsigned(s.netnsFd),
     s.tmpfsSize, s.securebitsSkipMask]
  }

  function CountWords(i: Image): (ws: seq<U64>)
    ensures |ws| == 8
  {
    [i.supplGidCount, i.filterLen, i.mountsCount, i.fsRulesCount, i.cgroupCount, i.remountMode,
     Unsigned(i.fsRulesFd), Unsigned(i.landlockAbi)]
  }

  function PointerWords(i: Image): (ws: seq<U64>)
    ensures |ws| == 6
  {
    [Bit(i.user), Bit(i.supplGids), Bit(i.chrootdir), Bit(i.hostname), Bit(i.altSyscallTable), Bit(i.seccompPolicyPath)]
  }

  function ValueWords(i: Image): (ws: seq<U64>)
    ensures |ws| == 24
  {
    SettingWords(i.settings) + (CountWords(i) + PointerWords(i))
  }

  /** `n` slots, the used ones marked. */
  function RlimitWords(rs: seq<Rlimit>, n: nat): (ws: seq<U64>)
    ensures |ws| == 4 * n
  {
    if n == 0 then []
    else if rs == [] then [0, 0, 0, 0] + RlimitWords([], n - 1)
    else [1, Unsigned(rs[0].kind), rs[0].cur, rs[0].max] + RlimitWords(rs[1..], n - 1)
  }

  function FdWords(ps: seq<FdPair>, n: nat): (ws: seq<U64>)
    ensures |ws| == 3 * n
  {
    if n == 0 then []
    else if ps == [] then [0, 0, 0] + FdWords([], n - 1)
    else [1, Unsigned(ps[0].parent), Unsigned(ps[0].child)] + FdWords(ps[1..], n - 1)
  }

  function ImageWords(i: Image): (ws: seq<U64>)
    ensures |ws| == 44 + 24 + 4 * 32 + 3 * 128
  {
    FlagWords(i.flags) + (ValueWords(i) + (RlimitWords(i.settings.rlimits, 32) + FdWords(i.settings.preservedFds, 128)))
  }

  lemma InIdentity(f: Flag)
    requires f.Uid? || f.Gid? || f.InheritSupplGids? || f.SetSupplGids? || f.KeepSupplGids? || f.UseCaps? ||
             f.CapbsetDrop? || f.SetAmbientCaps? || f.Vfs? || f.EnterVfs? || f.Pids?
    ensures f in IDENTITY
  {
    match f
    case Uid => assert IDENTITY[0] == f;
    case Gid => assert IDENTITY[1] == f;
    case InheritSupplGids => assert IDENTITY[2] == f;
    case SetSupplGids => assert IDENTITY[3] == f;
    case KeepSupplGids => assert IDENTITY[4] == f;
    case UseCaps => assert IDENTITY[5] == f;
    case CapbsetDrop => assert IDENTITY[6] == f;
    case SetAmbientCaps => assert IDENTITY[7] == f;
    case Vfs => assert IDENTITY[8] == f;
    case EnterVfs => assert IDENTITY[9] == f;
    case Pids => assert IDENTITY[10] == f;
  }

  lemma InSpaces(f: Flag)
    requires f.Ipc? || f.Uts? || f.Net? || f.EnterNet? || f.NsCgroups? || f.Userns? || f.DisableSetgroups? ||
             f.Seccomp? || f.RemountProcRo? || f.NoNewPrivs? || f.SeccompFilter?
    ensures f in SPACES
  {
    match f
    case Ipc => assert SPACES[0] == f;
    case Uts => assert SPACES[1] == f;
    case Net => assert SPACES[2] == f;
    case EnterNet => assert SPACES[3] == f;
    case NsCgroups => assert SPACES[4] == f;
    case Userns => assert SPACES[5] == f;
    case DisableSetgroups => assert SPACES[6] == f;
    case Seccomp => assert SPACES[7] == f;
    case RemountProcRo => assert SPACES[8] == f;
    case NoNewPrivs => assert SPACES[9] == f;
    case SeccompFilter => assert SPACES[10] == f;
  }

  lemma InFilters(f: Flag)
    requires f.SeccompFilterTsync? || f.SeccompFilterLogging? || f.SeccompFilterAllowSpeculation? || f.Chroot? ||
             f.PivotRoot? || f.MountDev? || f.MountTmp? || f.DoInit? || f.RunAsInit? || f.PidFile? || f.Cgroups?
    ensures f in FILTERS
  {
    match f
    case SeccompFilterTsync => assert FILTERS[0] == f;
    case SeccompFilterLogging => assert FILTERS[1] == f;
    case SeccompFilterAllowSpeculation => assert FILTERS[2] == f;
    case Chroot => assert FILTERS[3] == f;
    case PivotRoot => assert FILTERS[4] == f;
    case MountDev => assert FILTERS[5] == f;
    case MountTmp => assert FILTERS[6] == f;
    case DoInit => assert FILTERS[7] == f;
    case RunAsInit => assert FILTERS[8] == f;
    case PidFile => assert FILTERS[9] == f;
    case Cgroups => assert FILTERS[10] == f;
  }

  lemma InProcess(f: Flag)
    requires f.AltSyscall? || f.ResetSignalMask? || f.ResetSignalHandlers? || f.CloseOpenFds? ||
             f.NewSessionKeyring? || f.ForwardSignals? || f.Setsid? || f.UsingMinimalisticMountns? ||
             f.EnableFsRestrictions? || f.EnableProfileFsRestrictions? || f.EnableDefaultRuntime?
    ensures f in PROCESS
  {
    match f
    case AltSyscall => assert PROCESS[0] == f;
    case ResetSignalMask => assert PROCESS[1] == f;
    case ResetSignalHandlers => assert PROCESS[2] == f;
    case CloseOpenFds => assert PROCESS[3] == f;
    case NewSessionKeyring => assert PROCESS[4] == f;
    case ForwardSignals => assert PROCESS[5] == f;
    case Setsid => assert PROCESS[6] == f;
    case UsingMinimalisticMountns => assert PROCESS[7] == f;
    case EnableFsRestrictions => assert PROCESS[8] == f;
    case EnableProfileFsRestrictions => assert PROCESS[9] == f;
    case EnableDefaultRuntime => assert PROCESS[10] == f;
  }

  lemma SameBits(fs: seq<Flag>, a: set<Flag>, b: set<Flag>)
    requires BitsOf(fs, a) == BitsOf(fs, b)
    ensures forall f :: f in fs ==> (f in a <==> f in b)
  {
    forall f | f in fs
      ensures f in a <==> f in b
    {
      var k :| 0 <= k < |fs| && fs[k] == f;
      assert BitsOf(fs, a)[k] == BitsOf(fs, b)[k];
    }
  }

  lemma FlagWordsInjective(a: set<Flag>, b: set<Flag>)
    requires FlagWords(a) == FlagWords(b)
    ensures a == b
  {
    hide BitsOf;
    var x1, x2, x3, x4 := BitsOf(IDENTITY, a), BitsOf(SPACES, a), BitsOf(FILTERS, a), BitsOf(PROCESS, a);
    var y1, y2, y3, y4 := BitsOf(IDENTITY, b), BitsOf(SPACES, b), BitsOf(FILTERS, b), BitsOf(PROCESS, b);
    SamePrefix(x1, x2 + (x3 + x4), y1, y2 + (y3 + y4));
    SamePrefix(x2, x3 + x4, y2, y3 + y4);
    SamePrefix(x3, x4, y3, y4);
    SameBits(IDENTITY, a, b);
    SameBits(SPACES, a, b);
    SameBits(FILTERS, a, b);
    SameBits(PROCESS, a, b);
    forall f: Flag
      ensures f in a <==> f in b
    {
      Grouped(f);
    }
  }

  lemma Grouped(f: Flag)
    ensures f in IDENTITY || f in SPACES || f in FILTERS || f in PROCESS
  {
    if f.Uid? || f.Gid? || f.InheritSupplGids? || f.SetSupplGids? || f.KeepSupplGids? || f.UseCaps? ||
       f.CapbsetDrop? || f.SetAmbientCaps? || f.Vfs? || f.EnterVfs? || f.Pids? {
      InIdentity(f);
    } else if f.Ipc? || f.Uts? || f.Net? || f.EnterNet? || f.NsCgroups? || f.Userns? || f.DisableSetgroups? ||
       f.Seccomp? || f.RemountProcRo? || f.NoNewPrivs? || f.SeccompFilter? {
      InSpaces(f);
    } else if f.SeccompFilterTsync? || f.SeccompFilterLogging? || f.SeccompFilterAllowSpeculation? || f.Chroot? ||
       f.PivotRoot? || f.MountDev? || f.MountTmp? || f.DoInit? || f.RunAsInit? || f.PidFile? || f.Cgroups? {
      InFilters(f);
    } else {
      InProcess(f);
    }
  }

  lemma {:induction false} RlimitWordsInjective(a: seq<Rlimit>, b: seq<Rlimit>, n: nat)
    requires |a| <= n && |b| <= n && RlimitWords(a, n) == RlimitWords(b, n)
    ensures a == b
  {
    if n > 0 {
      var x, y := RlimitWords(a, n), RlimitWords(b, n);
      assert x[0] == (if a == [] then 0 else 1) && y[0] == if b == [] then 0 else 1;
      if a != [] {
        assert x[1] == Unsigned(a[0].kind) && x[2] == a[0].cur && x[3] == a[0].max;
        assert y[1] == Unsigned(b[0].kind) && y[2] == b[0].cur && y[3] == b[0].max;
        assert x[4..] == RlimitWords(a[1..], n - 1) && y[4..] == RlimitWords(b[1..], n - 1);
        RlimitWordsInjective(a[1..], b[1..], n - 1);
        assert a == [a[0]] + a[1..] && b == [b[0]] + b[1..];
      }
    }
  }

  lemma {:induction false} FdWordsInjective(a: seq<FdPair>, b: seq<FdPair>, n: nat)
    requires |a| <= n && |b| <= n && FdWords(a, n) == FdWords(b, n)
    ensures a == b
  {
    if n > 0 {
      var x, y := FdWords(a, n), FdWords(b, n);
      assert x[0] == (if a == [] then 0 else 1) && y[0] == if b == [] then 0 else 1;
      if a != [] {
        assert x[1] == Unsigned(a[0].parent) && x[2] == Unsigned(a[0].child);
        assert y[1] == Unsigned(b[0].parent) && y[2] == Unsigned(b[0].child);
        assert x[3..] == FdWords(a[1..], n - 1) && y[3..] == FdWords(b[1..], n - 1);
        FdWordsInjective(a[1..], b[1..], n - 1);
        assert a == [a[0]] + a[1..] && b == [b[0]] + b[1..];
      }
    }
  }

  lemma SamePrefix(a: seq<U64>, b: seq<U64>, c: seq<U64>, d: seq<U64>)
    requires a + b == c + d && |a| == |c|
    ensures a == c && b == d
  {
    assert a == (a + b)[..|a|] == (c + d)[..|a|] == c;
    assert b == (a + b)[|a|..] == (c + d)[|a|..] == d;
  }

  lemma SettingWordsInjective(s: Settings, t: Settings)
    requires SettingWords(s) == SettingWords(t) && s.rlimits == t.rlimits && s.preservedFds == t.preservedFds
    ensures s == t
  {
    var x, y := SettingWords(s), SettingWords(t);
    assert x[0] == s.uid && x[1] == s.gid && x[2] == s.usergid && x[3] == s.caps && x[4] == s.capBset;
    assert y[0] == t.uid && y[1] == t.gid && y[2] == t.usergid && y[3] == t.caps && y[4] == t.capBset;
    assert x[5] == Unsigned(s.initpid) && x[6] == Unsigned(s.mountnsFd) && x[7] == Unsigned(s.netnsFd);
    assert y[5] == Unsigned(t.initpid) && y[6] == Unsigned(t.mountnsFd) && y[7] == Unsigned(t.netnsFd);
    assert x[8] == s.tmpfsSize && x[9] == s.securebitsSkipMask && y[8] == t.tmpfsSize && y[9] == t.securebitsSkipMask;
  }

  lemma CountWordsInjective(a: Image, b: Image)
    requires CountWords(a) == CountWords(b)
    ensures a.supplGidCount == b.supplGidCount && a.filterLen == b.filterLen && a.mountsCount == b.mountsCount
    ensures a.fsRulesCount == b.fsRulesCount && a.cgroupCount == b.cgroupCount && a.remountMode == b.remountMode
    ensures a.fsRulesFd == b.fsRulesFd && a.landlockAbi == b.landlockAbi
  {
    var x, y := CountWords(a), CountWords(b);
    assert x[0] == a.supplGidCount && x[1] == a.filterLen && x[2] == a.mountsCount && x[3] == a.fsRulesCount;
    assert y[0] == b.supplGidCount && y[1] == b.filterLen && y[2] == b.mountsCount && y[3] == b.fsRulesCount;
    assert x[4] == a.cgroupCount && x[5] == a.remountMode && y[4] == b.cgroupCount && y[5] == b.remountMode;
    assert x[6] == Unsigned(a.fsRulesFd) && x[7] == Unsigned(a.landlockAbi);
    assert y[6] == Unsigned(b.fsRulesFd) && y[7] == Unsigned(b.landlockAbi);
  }

  lemma PointerWordsInjective(a: Image, b: Image)
    requires PointerWords(a) == PointerWords(b)
    ensures a.user == b.user && a.supplGids == b.supplGids && a.chrootdir == b.chrootdir && a.hostname == b.hostname
    ensures a.altSyscallTable == b.altSyscallTable && a.seccompPolicyPath == b.seccompPolicyPath
  {
    var x, y := PointerWords(a), PointerWords(b);
    assert x[0] == Bit(a.user) && x[1] == Bit(a.supplGids) && x[2] == Bit(a.chrootdir) && x[3] == Bit(a.hostname);
    assert y[0] == Bit(b.user) && y[1] == Bit(b.supplGids) && y[2] == Bit(b.chrootdir) && y[3] == Bit(b.hostname);
    assert x[4] == Bit(a.altSyscallTable) && x[5] == Bit(a.seccompPolicyPath);
    assert y[4] == Bit(b.altSyscallTable) && y[5] == Bit(b.seccompPolicyPath);
  }

  lemma ValueWordsInjective(a: Image, b: Image)
    requires ValueWords(a) == ValueWords(b)
    requires a.flags == b.flags && a.settings.rlimits == b.settings.rlimits
    requires a.settings.preservedFds == b.settings.preservedFds
    ensures a == b
  {
    hide SettingWords, CountWords, PointerWords;
    SamePrefix(SettingWords(a.settings), CountWords(a) + PointerWords(a),
               SettingWords(b.settings), CountWords(b) + PointerWords(b));
    SamePrefix(CountWords(a), PointerWords(a), CountWords(b), PointerWords(b));
    SettingWordsInjective(a.settings, b.settings);
    CountWordsInjective(a, b);
    PointerWordsInjective(a, b);
  }

  lemma ImageWordsInjective(a: Image, b: Image)
    requires ImageWords(a) == ImageWords(b)
    ensures a == b
  {
    hide FlagWords, ValueWords, RlimitWords, FdWords;
    var r, q := RlimitWords(a.settings.rlimits, 32), RlimitWords(b.settings.rlimits, 32);
    var f, g := FdWords(a.settings.preservedFds, 128), FdWords(b.settings.preservedFds, 128);
    SamePrefix(FlagWords(a.flags), ValueWords(a) + (r + f), FlagWords(b.flags), ValueWords(b) + (q + g));
    SamePrefix(ValueWords(a), r + f, ValueWords(b), q + g);
    SamePrefix(r, f, q, g);
    FlagWordsInjective(a.flags, b.flags);
    RlimitWordsInjective(a.settings.rlimits, b.settings.rlimits, 32);
    FdWordsInjective(a.settings.preservedFds, b.settings.preservedFds, 128);
    ValueWordsInjective(a, b);
  }

  function Encode(i: Image): seq<Byte> { Words(ImageWords(i), 8) }

  lemma EncodeInjective(a: Image, b: Image)
    requires Encode(a) == Encode(b)
    ensures a == b
  {
    hide ImageWords, Words, Words64;
    TakesWords64(ImageWords(a));
    TakesWords64(ImageWords(b));
    ImageWordsInjective(a, b);
  }

  ghost predicate Encoded(b: seq<Byte>) { exists i: Image :: Encode(i) == b }

  ghost function Decode(b: seq<Byte>): (i: Image)
    ensures Encoded(b) ==> Encode(i) == b
  {
    if Encoded(b) then
      var i: Image :| Encode(i) == b;
      i
    else ImageOf(FRESH)
  }

  /** There is a faithful layout. */
  lemma FaithfulExists() returns (l: Layout)
    ensures Faithful(l)
  {
    hide ImageWords, Words;
    l := Layout(8 * (44 + 24 + 4 * 32 + 3 * 128), i => Encode(i), b => Decode(b));
    forall i: Image
      ensures |l.encode(i)| == l.size && l.decode(l.encode(i)) == i
    {
      TakesWords64(ImageWords(i));
      assert Encoded(Encode(i));
      EncodeInjective(Decode(Encode(i)), i);
    }
  }
}
