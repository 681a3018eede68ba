/** The jail description (`struct minijail`) and the calls that build one.

    The C structure holds plain values, pointers to strings and arrays, linked lists
    with a length counter beside each, and forty-odd one-bit flags.  Here the flags are a
    set, a pointer that may be null is an `Option`, and a list is a sequence that keeps
    its counter as a field of its own, because the counter and not the list is what
    travels inside the marshalled structure. */
module Jail {
  import opened Bits
  import opened Machine

  type S32 = x: int | -0x8000_0000 <= x < 0x8000_0000

  /** Bytes of a C string, without the terminating zero. */
  type CString = s: seq<Byte> | 0 !in s

  datatype Flag =
    | Uid | Gid | InheritSupplGids | SetSupplGids | KeepSupplGids | UseCaps | CapbsetDrop | SetAmbientCaps
    | Vfs | EnterVfs | Pids | Ipc | Uts | Net | EnterNet | NsCgroups | Userns | DisableSetgroups | Seccomp
    | RemountProcRo | NoNewPrivs | SeccompFilter | SeccompFilterTsync | SeccompFilterLogging
    | SeccompFilterAllowSpeculation | Chroot | PivotRoot | MountDev | MountTmp | DoInit | RunAsInit | PidFile
    | Cgroups | AltSyscall | ResetSignalMask | ResetSignalHandlers | CloseOpenFds | NewSessionKeyring
    | ForwardSignals | Setsid | UsingMinimalisticMountns | EnableFsRestrictions | EnableProfileFsRestrictions
    | EnableDefaultRuntime

  datatype Rlimit = Rlimit(kind: S32, cur: U64, max: U64)

  type Rlimits = s: seq<Rlimit> | |s| <= MAX_RLIMITS

  datatype FdPair = FdPair(parent: S32, child: S32)

  type FdPairs = s: seq<FdPair> | |s| <= MAX_PRESERVED_FDS

  /** The fields that are plain values. */
  datatype Settings = Settings(uid: U32, gid: U32, usergid: U32, caps: U64, capBset: U64, initpid: S32,
                               mountnsFd: S32, netnsFd: S32, tmpfsSize: U64, rlimits: Rlimits,
                               securebitsSkipMask: U64, preservedFds: FdPairs)

  datatype Mount = Mount(src: CString, dest: CString, fstype: CString, data: Option<CString>, flags: U64)

  datatype Remount = Remount(mode: U64, name: CString)

  datatype FsRule = FsRule(path: CString, landlockFlags: U64)

  datatype HookEvent = PreDropCaps | PreExecve | PreChroot

  datatype Hook = Hook(id: nat, event: HookEvent)

  datatype Jail = Jail(
    flags: set<Flag>,
    settings: Settings,
    supplGidCount: U64,
    filterLen: U64,
    mountsCount: U64,
    fsRulesCount: U64,
    cgroupCount: U64,
    remountMode: U64,
    fsRulesFd: S32,
    landlockAbi: S32,
    user: Option<CString>,
    supplGids: Option<seq<U32>>,
    chrootdir: Option<CString>,
    pidFilePath: Option<CString>,
    uidmap: Option<CString>,
    gidmap: Option<CString>,
    hostname: Option<CString>,
    preloadPath: Option<CString>,
    filename: Option<CString>,
    filterProg: Option<seq<U64>>,
    altSyscallTable: Option<CString>,
    mounts: seq<Mount>,
    remounts: seq<Remount>,
    fsRules: seq<FsRule>,
    cgroups: seq<CString>,
    hooks: seq<Hook>,
    seccompPolicyPath: Option<CString>)

  /** What the kernel answers: the Landlock ABI version and the descriptor of a new ruleset. */
  datatype Kernel = Kernel(landlockAbi: S32, rulesetFd: S32)

  const NGROUPS_MAX: nat := 65536
  const USHRT_MAX: nat := 65535
  const MAX_CGROUPS: nat := 10
  const MAX_RLIMITS: nat := 32
  const MAX_PRESERVED_FDS: nat := 128
  const MS_PRIVATE: nat := 0x40000
  const MS_NOSUID: nat := 2
  const MS_NODEV: nat := 4
  const MS_NOEXEC: nat := 8

  /** "tmpfs" */
  const TMPFS: CString := [116, 109, 112, 102, 115]

  /** "mode=0755,size=10M" */
  const TMPFS_DATA: CString := [109, 111, 100, 101, 61, 48, 55, 53, 53, 44, 115, 105, 122, 101, 61, 49, 48, 77]

  const SLASH: Byte := 47

  /** `minijail_new`. */
  const FRESH: Jail := Jail(
    {EnableFsRestrictions, EnableProfileFsRestrictions, EnableDefaultRuntime},
    Settings(0, 0, 0, 0, 0, 0, 0, 0, 0, [], 0, []),
    0, 0, 0, 0, 0, MS_PRIVATE, -1, -1,
    None, None, None, None, None, None, None, None, None, None, None, [], [], [], [], [], None)

  // ---------------------------------------------------------------- mounts and filesystem rules

  /** A mount option string after the defaults for tmpfs have been applied. */
  function DefaultData(fstype: CString, data: Option<CString>): Option<CString> {
    if fstype == TMPFS && (data.None? || data.value == []) then Some(TMPFS_DATA) else data
  }

  function DefaultFlags(flags: U64): U64 {
    if flags == 0 then MS_NODEV + MS_NOEXEC + MS_NOSUID else flags
  }

  /** A jail after a request to mount: refused unless the destination is absolute. */
  function WithMount(j: Jail, src: CString, dest: CString, fstype: CString, flags: U64,
                     data: Option<CString>): Option<Jail>
    requires j.mountsCount < TWO64 - 1
  {
    if dest == [] || dest[0] != SLASH then None
    else
      var m := Mount(src, dest, fstype, DefaultData(fstype, data), DefaultFlags(flags));
      Some(j.(mounts := j.mounts + [m], mountsCount := j.mountsCount + 1,
              flags := if EnterVfs in j.flags then j.flags else j.flags + {Vfs}))
  }

  /** A mount request that the defaults leave as it is. */
  predicate Settled(m: Mount) {
    m.dest != [] && m.dest[0] == SLASH
    && DefaultData(m.fstype, m.data) == m.data
    && DefaultFlags(m.flags) == m.flags
  }

  /** The defaults are idempotent: whatever a request asked for, the recorded mount is settled. */
  lemma MountIsSettled(j: Jail, src: CString, dest: CString, fstype: CString, flags: U64, data: Option<CString>)
    requires j.mountsCount < TWO64 - 1
    ensures var r := WithMount(j, src, dest, fstype, flags, data);
            r.Some? <==> dest != [] && dest[0] == SLASH
    ensures var r := WithMount(j, src, dest, fstype, flags, data);
            r.Some? ==> |r.value.mounts| == |j.mounts| + 1 && Settled(r.value.mounts[|j.mounts|])
  {
    var r := WithMount(j, src, dest, fstype, flags, data);
    if r.Some? {
      assert TMPFS_DATA != [];
    }
  }

  /** Probing the Landlock version once, and a new ruleset descriptor. */
  function WithRuleset(k: Kernel, j: Jail): Jail {
    j.(landlockAbi := if j.landlockAbi < 0 && k.landlockAbi > 0 then k.landlockAbi else j.landlockAbi,
       fsRulesFd := k.rulesetFd)
  }

  function WithFsRule(k: Kernel, j: Jail, rule: FsRule): Jail
    requires j.fsRulesCount < TWO64 - 1
  {
    var added := j.(fsRules := j.fsRules + [rule]);
    (if j.fsRulesCount == 0 then WithRuleset(k, added) else added).(fsRulesCount := j.fsRulesCount + 1)
  }

  /** `struct minijail` as an object that API calls update in place. */
  class Minijail {
    var jail: Jail

    constructor ()
      ensures jail == FRESH
    {
      jail := FRESH;
    }

    method MountWithData(src: CString, dest: CString, fstype: CString, flags: U64, data: Option<CString>)
      returns (ok: bool)
      requires jail.mountsCount < TWO64 - 1
      modifies this
      ensures var r := WithMount(old(jail), src, dest, fstype, flags, data);
              ok == r.Some? && jail == if ok then r.value else old(jail)
    {
      if dest == [] || dest[0] != SLASH {
        return false;
      }
      var d := data;
      if d.None? || d.value == [] {
        if fstype == TMPFS {
          d := Some(TMPFS_DATA);
        }
      }
      var f := flags;
      if f == 0 {
        f := MS_NODEV + MS_NOEXEC + MS_NOSUID;
      }
      if EnterVfs !in jail.flags {
        jail := jail.(flags := jail.flags + {Vfs});
      }
      jail := jail.(mounts := jail.mounts + [Mount(src, dest, fstype, d, f)]);
      jail := jail.(mountsCount := jail.mountsCount + 1);
      return true;
    }

    method SetupFsRulesFd(k: Kernel)
      modifies this
      ensures jail == WithRuleset(k, old(jail))
    {
      if jail.landlockAbi < 0 {
        var abi := k.landlockAbi;
        if abi > 0 {
          jail := jail.(landlockAbi := abi);
        }
      }
      jail := jail.(fsRulesFd := k.rulesetFd);
    }

    method AddFsRestrictionPath(k: Kernel, path: CString, landlockFlags: U64)
      requires jail.fsRulesCount < TWO64 - 1
      modifies this
      ensures jail == WithFsRule(k, old(jail), FsRule(path, landlockFlags))
    {
      jail := jail.(fsRules := jail.fsRules + [FsRule(path, landlockFlags)]);
      if jail.fsRulesCount == 0 {
        SetupFsRulesFd(k);
      }
      jail := jail.(fsRulesCount := jail.fsRulesCount + 1);
    }
  }

  // ---------------------------------------------------------------- what every jail satisfies

  /** Mounts are counted, settled, and force a mount namespace. */
  predicate CoherentMounts(j: Jail) {
    && j.mountsCount == |j.mounts|
    && (forall i :: 0 <= i < |j.mounts| ==> Settled(j.mounts[i]))
    && (j.mounts != [] ==> Vfs in j.flags || EnterVfs in j.flags)
  }

  /** Rules are counted, and a jail that has some has probed the Landlock version of its kernel. */
  predicate CoherentRules(k: Kernel, j: Jail) {
    && j.fsRulesCount == |j.fsRules|
    && (j.fsRules != [] && j.landlockAbi < 0 ==> k.landlockAbi <= 0)
  }

  /** Groups, filter and control groups are counted. */
  predicate CoherentCounts(j: Jail) {
    && (j.supplGids.Some? ==> |j.supplGids.value| == j.supplGidCount)
    && j.filterLen <= USHRT_MAX
    && (j.filterProg.Some? ==> |j.filterProg.value| == j.filterLen)
    && j.cgroupCount == |j.cgroups| <= MAX_CGROUPS
  }

  /** Counters agree with their lists, mounts are settled and force a mount namespace, and a
      jail with rules has probed the Landlock version of its kernel. */
  predicate Coherent(k: Kernel, j: Jail) {
    CoherentMounts(j) && CoherentRules(k, j) && CoherentCounts(j)
  }

  /** What a mount request records: the request itself, with nodev, noexec and nosuid (4, 8 and 2) when it has no flags
      and "mode=0755,size=10M" when it is a "tmpfs" without options.  The mount comes last, a mount namespace is asked
      for unless one is entered, and nothing else changes. */
  lemma MountRecords(j: Jail, src: CString, dest: CString, fstype: CString, flags: U64, data: Option<CString>)
    requires j.mountsCount < TWO64 - 1
    ensures WithMount(j, src, dest, fstype, flags, data).Some? <==> |dest| > 0 && dest[0] == 47
    ensures |dest| > 0 && dest[0] == 47 ==>
              var r := WithMount(j, src, dest, fstype, flags, data).value;
              && |r.mounts| == |j.mounts| + 1 && r.mounts[..|j.mounts|] == j.mounts
              && r.mountsCount == j.mountsCount + 1
              && r.flags == (if EnterVfs in j.flags then j.flags else j.flags + {Vfs})
              && r.(mounts := j.mounts, mountsCount := j.mountsCount, flags := j.flags) == j
    ensures |dest| > 0 && dest[0] == 47 ==>
              var m := WithMount(j, src, dest, fstype, flags, data).value.mounts[|j.mounts|];
              && m.src == src && m.dest == dest && m.fstype == fstype
              && m.flags == (if flags == 0 then 2 + 4 + 8 else flags)
              && if fstype == [116, 109, 112, 102, 115] && (data.None? || |data.value| == 0)
                 then && m.data.Some?
                      && m.data.value == [109, 111, 100, 101, 61, 48, 55, 53, 53, 44, 115, 105, 122, 101, 61, 49, 48, 77]
                 else m.data == data
  {
    var r := WithMount(j, src, dest, fstype, flags, data);
    if r.Some? {
      assert r.value.mounts[..|j.mounts|] == j.mounts;
    }
  }

  /** Every mount of a coherent jail has flags and an absolute destination, and a "tmpfs" has options. */
  lemma CoherentMountsAreSafe(j: Jail, i: nat)
    requires CoherentMounts(j) && i < |j.mounts|
    ensures var m := j.mounts[i];
            && m.flags != 0 && |m.dest| > 0 && m.dest[0] == 47
            && (m.fstype == [116, 109, 112, 102, 115] ==> m.data.Some? && m.data.value != [])
            && (Vfs in j.flags || EnterVfs in j.flags)
  {
    assert Settled(j.mounts[i]);
    assert TMPFS_DATA != [];
  }

  /** What a filesystem rule records: it comes last and is counted; the first one stores the descriptor of a new ruleset
      and the version of a kernel that has one, unless a version is known.  Nothing else changes. */
  lemma FsRuleRecords(k: Kernel, j: Jail, rule: FsRule)
    requires j.fsRulesCount < TWO64 - 1
    ensures var r := WithFsRule(k, j, rule);
            && r.fsRules == j.fsRules + [rule] && r.fsRulesCount == j.fsRulesCount + 1
            && r.fsRulesFd == (if j.fsRulesCount == 0 then k.rulesetFd else j.fsRulesFd)
            && r.landlockAbi == (if j.fsRulesCount == 0 && j.landlockAbi < 0 && k.landlockAbi > 0 then k.landlockAbi
                                 else j.landlockAbi)
            && r.(fsRules := j.fsRules, fsRulesCount := j.fsRulesCount, fsRulesFd := j.fsRulesFd,
                  landlockAbi := j.landlockAbi) == j
  {
  }

  /** What a fresh jail holds. */
  lemma FreshHolds()
    ensures forall f :: f in FRESH.flags <==>
              f == EnableFsRestrictions || f == EnableProfileFsRestrictions || f == EnableDefaultRuntime
    ensures FRESH.remountMode == 0x4_0000 && FRESH.fsRulesFd == -1 && FRESH.landlockAbi == -1
    ensures FRESH.mounts == [] && FRESH.fsRules == [] && FRESH.filterProg == None && FRESH.supplGids == None
  {
  }
}
