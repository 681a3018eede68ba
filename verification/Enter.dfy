/** Applying a jail: the system effects of `minijail_enter`, and the split of one entry into
    two when the jailed program is started through the preloaded library.

    Effects are abstract.  System calls are taken to succeed, except that the kernel refuses to
    install a missing or empty filter program, so a process dies here only there and where
    `minijail_enter` itself refuses the configuration. */
module Enter {
  import opened Bits
  import opened Machine
  import opened Jail
  import opened Marshal
  import opened Unmarshal
  import opened Api

  /** The root directory an effect acts in: the one the process was started in, or the jail's. */
  datatype Root = Outer | Inner(dir: Option<CString>)

  datatype Effect =
    | JoinMountNs(fd: S32) | UnshareMounts | RemountRoot(mode: U64) | RemountAt(name: CString, mode: U64)
    | UnshareIpc | UnshareUts | NameHost(name: CString)
    | JoinNet(fd: S32) | UnshareNet | ConfigureLoopback | UnshareCgroups | JoinKeyring
    | PrepareDev | MountOn(root: Option<CString>, underDev: bool, uid: U32, gid: U32, mount: Mount) | MoveDev(root: Option<CString>)
    | RunHook(id: nat) | ChangeRoot(dir: Option<CString>) | PivotTo(dir: Option<CString>) | MountTmpfs(within: Root, size: U64)
    | DetachProc(within: Root) | MountProcReadOnly(within: Root)
    | BoundCaps(keep: U64) | LockSecurebits(skip: U64, keepCaps: bool)
    | InitGroups(user: Option<CString>, group: U32) | SetGroups(count: U64, list: Option<seq<U32>>) | ClearGroups
    | BecomeGroup(group: U32) | BecomeUser(owner: U32) | LimitCaps(caps: U64, skip: U64, ambient: bool)
    | ForbidNewPrivs | AddRule(fd: S32, rule: FsRule) | RestrictSelf(fd: S32)
    | CatchSigsys | ResetSigsys | InstallFilter(tsync: bool, speculation: bool, prog: seq<U64>)
    | SwitchSyscallTable(table: Option<CString>) | StrictSeccomp

  /** What a process has done, and whether it is still running. */
  datatype Run = Run(trace: seq<Effect>, alive: bool)

  /** Facts about the system that steer the entry. */
  datatype World = World(landlock: bool, asan: bool, retLog: bool, logByDefault: bool)

  function Then(a: Run, b: Run): Run {
    if a.alive then Run(a.trace + b.trace, b.alive) else a
  }

  function When(c: bool, e: Effect): seq<Effect> { if c then [e] else [] }

  // ---------------------------------------------------------------- the parts of an entry

  function Guard(j: Jail): Run {
    Run([], Pids !in j.flags && !(InheritSupplGids in j.flags && j.user.None?))
  }

  /** Remounts in list order, up to the first one that would be stricter than the root. */
  function Remounts(rs: seq<Remount>, mode: U64): (r: Run)
    ensures forall e :: e in r.trace ==> e.RemountAt?
  {
    if rs == [] then Run([], true)
    else if rs[0].mode < mode then Run([], false)
    else Then(Run([RemountAt(rs[0].name, rs[0].mode)], true), Remounts(rs[1..], mode))
  }

  function MountNs(j: Jail): Run {
    var joined := When(EnterVfs in j.flags, JoinMountNs(j.settings.mountnsFd));
    if Vfs !in j.flags then Run(joined, true)
    else if j.remountMode == 0 then Run(joined + [UnshareMounts], true)
    else Then(Run(joined + [UnshareMounts, RemountRoot(j.remountMode)], true), Remounts(j.remounts, j.remountMode))
  }

  function IpcNs(j: Jail): seq<Effect> { When(Ipc in j.flags, UnshareIpc) }

  function UtsNs(j: Jail): seq<Effect> {
    if Uts !in j.flags then []
    else [UnshareUts] + if j.hostname.Some? then [NameHost(j.hostname.value)] else []
  }

  function NetNs(j: Jail): seq<Effect> {
    if EnterNet in j.flags then [JoinNet(j.settings.netnsFd)]
    else if Net in j.flags then [UnshareNet, ConfigureLoopback]
    else []
  }

  function CgroupNs(j: Jail): seq<Effect> { When(NsCgroups in j.flags, UnshareCgroups) }

  function Hooks(hs: seq<Hook>, event: HookEvent): (t: seq<Effect>)
    ensures forall e :: e in t ==> e.RunHook?
  {
    if hs == [] then [] else When(hs[0].event == event, RunHook(hs[0].id)) + Hooks(hs[1..], event)
  }

  predicate DevPrefix(m: Mount) { |m.dest| >= 5 && m.dest[..5] == [47, 100, 101, 118, 47] }

  function MountEffect(j: Jail, m: Mount): Effect {
    MountOn(j.chrootdir, MountDev in j.flags && DevPrefix(m), j.settings.uid, j.settings.gid, m)
  }

  function MountAll(j: Jail, ms: seq<Mount>): (t: seq<Effect>)
    ensures forall e :: e in t ==> e.MountOn?
  {
    if ms == [] then [] else [MountEffect(j, ms[0])] + MountAll(j, ms[1..])
  }

  function Mounts(j: Jail): seq<Effect> {
    When(MountDev in j.flags, PrepareDev) + MountAll(j, j.mounts) + When(MountDev in j.flags, MoveDev(j.chrootdir))
  }

  function Roots(j: Jail): seq<Effect> {
    (if Chroot in j.flags then Hooks(j.hooks, PreChroot) + [ChangeRoot(j.chrootdir)] else [])
    + (if PivotRoot in j.flags then Hooks(j.hooks, PreChroot) + [PivotTo(j.chrootdir)] else [])
  }

  /** The root a process is in once an entry has changed it, if it does. */
  function RootOf(j: Jail): Root {
    if Chroot in j.flags || PivotRoot in j.flags then Inner(j.chrootdir) else Outer
  }

  function Tmp(j: Jail): seq<Effect> { When(MountTmp in j.flags, MountTmpfs(RootOf(j), j.settings.tmpfsSize)) }

  function Proc(j: Jail): seq<Effect> {
    if RemountProcRo !in j.flags then []
    else When(Userns !in j.flags, DetachProc(RootOf(j))) + [MountProcReadOnly(RootOf(j))]
  }

  function Bounds(j: Jail): seq<Effect> {
    Hooks(j.hooks, PreDropCaps)
    + When(CapbsetDrop in j.flags, BoundCaps(j.settings.capBset))
    + When(UseCaps in j.flags, LockSecurebits(j.settings.securebitsSkipMask, SetAmbientCaps !in j.flags))
  }

  function Count(b: bool): nat { if b then 1 else 0 }

  function Groups(j: Jail): seq<Effect> {
    if InheritSupplGids in j.flags then [InitGroups(j.user, j.settings.usergid)]
    else if SetSupplGids in j.flags then [SetGroups(j.supplGidCount, j.supplGids)]
    else When(KeepSupplGids !in j.flags && DisableSetgroups !in j.flags && (Uid in j.flags || Gid in j.flags), ClearGroups)
  }

  function DropUgid(j: Jail): Run {
    if Count(InheritSupplGids in j.flags) + Count(KeepSupplGids in j.flags) + Count(SetSupplGids in j.flags) > 1 then Run([], false)
    else
      Run(Groups(j) + When(Gid in j.flags, BecomeGroup(j.settings.gid)) + When(Uid in j.flags, BecomeUser(j.settings.uid)), true)
  }

  function DropCaps(j: Jail): seq<Effect> {
    When(UseCaps in j.flags, LimitCaps(j.settings.caps, j.settings.securebitsSkipMask, SetAmbientCaps in j.flags))
  }

  function Rules(fd: S32, rs: seq<FsRule>): (t: seq<Effect>)
    ensures forall e :: e in t ==> e.AddRule?
  {
    if rs == [] then [] else [AddRule(fd, rs[0])] + Rules(fd, rs[1..])
  }

  function Landlock(w: World, j: Jail): seq<Effect> {
    if EnableFsRestrictions !in j.flags || j.fsRules == [] then []
    else (if w.landlock then Rules(j.fsRulesFd, j.fsRules) else []) + When(j.fsRulesFd >= 0, RestrictSelf(j.fsRulesFd))
  }

  function SigsysSetup(w: World, j: Jail): seq<Effect> {
    if w.logByDefault || SeccompFilterLogging in j.flags then When(!w.retLog, CatchSigsys)
    else When(SeccompFilterTsync in j.flags, ResetSigsys)
  }

  /** The kernel accepts no empty program and no null pointer. */
  function Install(j: Jail): Run {
    if j.filterProg.None? || j.filterProg.value == [] then Run([], false)
    else
      Run([InstallFilter(SeccompFilterTsync in j.flags, SeccompFilterAllowSpeculation in j.flags, j.filterProg.value)], true)
  }

  function Filter(w: World, j: Jail): Run {
    if SeccompFilter !in j.flags || w.asan then Run([], true) else Then(Run(SigsysSetup(w, j), true), Install(j))
  }

  /** Giving up privileges: before the filter when new ones are forbidden, after it otherwise. */
  function Drop(w: World, j: Jail): Run {
    if NoNewPrivs in j.flags then
      Then(DropUgid(j), Then(Run(DropCaps(j) + [ForbidNewPrivs] + Landlock(w, j), true), Filter(w, j)))
    else
      Then(Run(Landlock(w, j), true), Then(Filter(w, j), Then(DropUgid(j), Run(DropCaps(j), true))))
  }

  function Final(j: Jail): seq<Effect> {
    When(AltSyscall in j.flags, SwitchSyscallTable(j.altSyscallTable)) + When(Seccomp in j.flags, StrictSeccomp)
  }

  function Namespaces(j: Jail): seq<Effect> {
    IpcNs(j) + UtsNs(j) + NetNs(j) + CgroupNs(j) + When(NewSessionKeyring in j.flags, JoinKeyring)
  }

  function Filesystem(j: Jail): seq<Effect> {
    Mounts(j) + Roots(j) + Tmp(j) + Proc(j) + Bounds(j)
  }

  /** Everything `minijail_enter` does with a jail. */
  function Entered(w: World, j: Jail): Run {
    Then(Guard(j), Then(MountNs(j), Then(Run(Namespaces(j) + Filesystem(j), true), Then(Drop(w, j), Run(Final(j), true)))))
  }

  // ---------------------------------------------------------------- stripping a jail

  /** What the launching side keeps: what survives execve. */
  const KEPT: set<Flag> := {Vfs, EnterVfs, NsCgroups, Net, Uts, RemountProcRo, Userns, UsingMinimalisticMountns,
                            EnableFsRestrictions, EnableProfileFsRestrictions, EnableDefaultRuntime}

  /** What the receiving side drops: what the launching side has done. */
  const DROPPED: set<Flag> := {Vfs, EnterVfs, NsCgroups, Net, Uts, RemountProcRo, Pids, DoInit, RunAsInit, PidFile, Cgroups,
                               ForwardSignals, Setsid, UsingMinimalisticMountns, EnableProfileFsRestrictions,
                               EnableDefaultRuntime}

  function BeforeExec(j: Jail): Jail {
    j.(flags := j.flags * KEPT, user := None, supplGids := None, preloadPath := None, mounts := [], fsRules := [])
  }

  function BeforeEnter(j: Jail): Jail {
    j.(flags := j.flags - DROPPED, remountMode := 0, remounts := [])
  }

  method Preexec(j: Minijail)
    modifies j
    ensures j.jail == BeforeExec(old(j.jail))
  {
    var spaces := j.jail.flags * {Vfs, EnterVfs, NsCgroups, Net, Uts, RemountProcRo, Userns};
    var others := j.jail.flags * {UsingMinimalisticMountns, EnableFsRestrictions, EnableProfileFsRestrictions,
                                  EnableDefaultRuntime};
    ghost var was := j.jail.flags;
    j.jail := j.jail.(user := None, supplGids := None, preloadPath := None);
    j.jail := j.jail.(mounts := [], fsRules := []);
    j.jail := j.jail.(flags := {});
    j.jail := j.jail.(flags := spaces + others);
    assert j.jail.flags == was * KEPT;
  }

  method Preenter(j: Minijail)
    modifies j
    ensures j.jail == BeforeEnter(old(j.jail))
  {
    var f := j.jail.flags;
    f := f - {Vfs, EnterVfs, NsCgroups, Net, Uts, RemountProcRo};
    f := f - {Pids, DoInit, RunAsInit, PidFile, Cgroups, ForwardSignals, Setsid};
    j.jail := j.jail.(remountMode := 0);
    f := f - {UsingMinimalisticMountns, EnableProfileFsRestrictions, EnableDefaultRuntime};
    j.jail := j.jail.(flags := f, remounts := []);
  }

  // ---------------------------------------------------------------- the entry, step by step

  method MountList(j: Jail) returns (t: seq<Effect>)
    ensures t == MountAll(j, j.mounts)
  {
    t := [];
    var i := 0;
    while i < |j.mounts|
      invariant 0 <= i <= |j.mounts|
      invariant t + MountAll(j, j.mounts[i..]) == MountAll(j, j.mounts)
    {
      MountStep(t, j, i);
      t := t + [MountEffect(j, j.mounts[i])];
      i := i + 1;
    }
  }

  lemma {:induction false} MountStep(t: seq<Effect>, j: Jail, i: nat)
    requires i < |j.mounts|
    ensures t + MountAll(j, j.mounts[i..]) == (t + [MountEffect(j, j.mounts[i])]) + MountAll(j, j.mounts[i + 1..])
  {
    hide MountEffect;
    assert j.mounts[i..][1..] == j.mounts[i + 1..];
  }

  method RunHooks(hs: seq<Hook>, event: HookEvent) returns (t: seq<Effect>)
    ensures t == Hooks(hs, event)
  {
    t := [];
    var i := 0;
    while i < |hs|
      invariant 0 <= i <= |hs|
      invariant t + Hooks(hs[i..], event) == Hooks(hs, event)
    {
      HookStep(t, hs, event, i);
      if hs[i].event == event {
        t := t + [RunHook(hs[i].id)];
      }
      i := i + 1;
    }
  }

  lemma {:induction false} HookStep(t: seq<Effect>, hs: seq<Hook>, event: HookEvent, i: nat)
    requires i < |hs|
    ensures t + Hooks(hs[i..], event)
         == (if hs[i].event == event then t + [RunHook(hs[i].id)] else t) + Hooks(hs[i + 1..], event)
  {
    assert hs[i..][1..] == hs[i + 1..];
  }

  method RemountAll(rs: seq<Remount>, mode: U64) returns (r: Run)
    ensures r == Remounts(rs, mode)
  {
    r := Run([], true);
    var i := 0;
    while i < |rs|
      invariant 0 <= i <= |rs| && r.alive
      invariant Then(r, Remounts(rs[i..], mode)) == Remounts(rs, mode)
    {
      assert rs[i..][1..] == rs[i + 1..];
      if rs[i].mode < mode {
        return Run(r.trace, false);
      }
      r := Run(r.trace + [RemountAt(rs[i].name, rs[i].mode)], true);
      i := i + 1;
    }
  }

  method ApplyLandlock(w: World, j: Jail) returns (t: seq<Effect>)
    ensures t == Landlock(w, j)
  {
    t := [];
    if EnableFsRestrictions !in j.flags || j.fsRules == [] {
      return;
    }
    if w.landlock {
      var i := 0;
      while i < |j.fsRules|
        invariant 0 <= i <= |j.fsRules|
        invariant t + Rules(j.fsRulesFd, j.fsRules[i..]) == Rules(j.fsRulesFd, j.fsRules)
      {
        assert j.fsRules[i..][1..] == j.fsRules[i + 1..];
        t := t + [AddRule(j.fsRulesFd, j.fsRules[i])];
        i := i + 1;
      }
    }
    if j.fsRulesFd >= 0 {
      t := t + [RestrictSelf(j.fsRulesFd)];
    }
  }

  method EnterMountNs(j: Jail) returns (r: Run)
    ensures r == MountNs(j)
  {
    hide Remounts;
    r := Run([], true);
    if EnterVfs in j.flags {
      r := Run([JoinMountNs(j.settings.mountnsFd)], true);
    }
    if Vfs in j.flags {
      r := Run(r.trace + [UnshareMounts], true);
      if j.remountMode != 0 {
        ghost var joined := When(EnterVfs in j.flags, JoinMountNs(j.settings.mountnsFd));
        r := Run(r.trace + [RemountRoot(j.remountMode)], true);
        assert r.trace == joined + [UnshareMounts, RemountRoot(j.remountMode)];
        var q := RemountAll(j.remounts, j.remountMode);
        r := Run(r.trace + q.trace, q.alive);
      }
    }
  }

  method EnterNamespaces(j: Jail) returns (t: seq<Effect>)
    ensures t == Namespaces(j)
  {
    t := [];
    if Ipc in j.flags {
      t := t + [UnshareIpc];
    }
    assert t == IpcNs(j);
    if Uts in j.flags {
      t := t + [UnshareUts];
      if j.hostname.Some? {
        t := t + [NameHost(j.hostname.value)];
      }
    }
    assert t == IpcNs(j) + UtsNs(j);
    if EnterNet in j.flags {
      t := t + [JoinNet(j.settings.netnsFd)];
    } else if Net in j.flags {
      t := t + [UnshareNet];
      t := t + [ConfigureLoopback];
    }
    assert t == IpcNs(j) + UtsNs(j) + NetNs(j);
    if NsCgroups in j.flags {
      t := t + [UnshareCgroups];
    }
    if NewSessionKeyring in j.flags {
      t := t + [JoinKeyring];
    }
  }

  method ProcessMounts(j: Jail) returns (t: seq<Effect>)
    ensures t == Mounts(j)
  {
    hide MountAll;
    t := if MountDev in j.flags then [PrepareDev] else [];
    var mounted := MountList(j);
    t := t + mounted;
    if MountDev in j.flags {
      t := t + [MoveDev(j.chrootdir)];
    }
  }

  method EnterRoots(j: Jail) returns (t: seq<Effect>)
    ensures t == Roots(j)
  {
    hide Hooks;
    t := [];
    if Chroot in j.flags {
      var before := RunHooks(j.hooks, PreChroot);
      t := before + [ChangeRoot(j.chrootdir)];
    }
    if PivotRoot in j.flags {
      var before := RunHooks(j.hooks, PreChroot);
      t := t + (before + [PivotTo(j.chrootdir)]);
    }
  }

  method LimitBounds(j: Jail) returns (t: seq<Effect>)
    ensures t == Bounds(j)
  {
    hide Hooks;
    t := RunHooks(j.hooks, PreDropCaps);
    if CapbsetDrop in j.flags {
      t := t + [BoundCaps(j.settings.capBset)];
    }
    if UseCaps in j.flags {
      t := t + [LockSecurebits(j.settings.securebitsSkipMask, SetAmbientCaps !in j.flags)];
    }
  }

  method EnterFilesystem(j: Jail) returns (t: seq<Effect>)
    ensures t == Filesystem(j)
  {
    hide Mounts, Roots, Bounds;
    t := ProcessMounts(j);
    var roots := EnterRoots(j);
    t := t + roots;
    if MountTmp in j.flags {
      t := t + [MountTmpfs(RootOf(j), j.settings.tmpfsSize)];
    }
    if RemountProcRo in j.flags {
      t := t + ((if Userns !in j.flags then [DetachProc(RootOf(j))] else []) + [MountProcReadOnly(RootOf(j))]);
    }
    assert t == Mounts(j) + Roots(j) + Tmp(j) + Proc(j);
    var bounds := LimitBounds(j);
    t := t + bounds;
  }

  method SetSeccompFilter(w: World, j: Jail) returns (r: Run)
    ensures r == Filter(w, j)
  {
    if SeccompFilter !in j.flags || w.asan {
      return Run([], true);
    }
    var t: seq<Effect> := [];
    if w.logByDefault || SeccompFilterLogging in j.flags {
      if !w.retLog {
        t := [CatchSigsys];
      }
    } else if SeccompFilterTsync in j.flags {
      t := [ResetSigsys];
    }
    if j.filterProg.None? || j.filterProg.value == [] {
      return Run(t + [], false);
    }
    var install := InstallFilter(SeccompFilterTsync in j.flags, SeccompFilterAllowSpeculation in j.flags, j.filterProg.value);
    r := Run(t + [install], true);
  }

  method DropPrivileges(w: World, j: Jail) returns (r: Run)
    ensures r == Drop(w, j)
  {
    hide Landlock, Filter, DropUgid, DropCaps;
    if NoNewPrivs in j.flags {
      r := DropUgid(j);
      if !r.alive { return; }
      var locked := ApplyLandlock(w, j);
      var t := DropCaps(j) + [ForbidNewPrivs] + locked;
      var filter := SetSeccompFilter(w, j);
      r := Run(r.trace + (t + filter.trace), filter.alive);
    } else {
      var t := ApplyLandlock(w, j);
      var filter := SetSeccompFilter(w, j);
      if !filter.alive { return Run(t + filter.trace, false); }
      var dropped := DropUgid(j);
      if !dropped.alive { return Run(t + (filter.trace + dropped.trace), false); }
      r := Run(t + (filter.trace + (dropped.trace + DropCaps(j))), true);
    }
  }

  /** `minijail_enter`. */
  method EnterJail(w: World, j: Jail) returns (r: Run)
    ensures r == Entered(w, j)
  {
    hide MountNs, Namespaces, Filesystem, Drop;
    if Pids in j.flags {
      return Run([], false);
    }
    if InheritSupplGids in j.flags && j.user.None? {
      return Run([], false);
    }
    r := EnterMountNs(j);
    if !r.alive { return Run([] + r.trace, false); }
    var spaces := EnterNamespaces(j);
    var files := EnterFilesystem(j);
    var q := DropPrivileges(w, j);
    if !q.alive { return Run([] + (r.trace + ((spaces + files) + q.trace)), false); }
    var end: seq<Effect> := if AltSyscall in j.flags then [SwitchSyscallTable(j.altSyscallTable)] else [];
    if Seccomp in j.flags {
      end := end + [StrictSeccomp];
    }
    r := Run([] + (r.trace + ((spaces + files) + (q.trace + end))), true);
  }

  // ---------------------------------------------------------------- the split

  /** Effects of the launching side: they outlive execve. */
  predicate Early(e: Effect) {
    e.JoinMountNs? || e.UnshareMounts? || e.RemountRoot? || e.RemountAt? || e.UnshareUts? || e.NameHost? || e.UnshareNet?
    || e.ConfigureLoopback? || e.UnshareCgroups? || e.DetachProc? || e.MountProcReadOnly?
  }

  /** The effects of one side, in order. */
  function Phase(early: bool, t: seq<Effect>): seq<Effect> {
    if t == [] then [] else (if Early(t[0]) == early then [t[0]] else []) + Phase(early, t[1..])
  }

  lemma {:induction false} PhaseSum(early: bool, s: seq<Effect>, t: seq<Effect>)
    ensures Phase(early, s + t) == Phase(early, s) + Phase(early, t)
  {
    hide Early;
    if s == [] {
      assert s + t == t;
    } else {
      assert (s + t)[1..] == s[1..] + t;
      PhaseSum(early, s[1..], t);
    }
  }

  lemma {:induction false} PhaseWhole(early: bool, t: seq<Effect>)
    requires forall e :: e in t ==> Early(e) == early
    ensures Phase(early, t) == t && Phase(!early, t) == []
  {
    if t != [] {
      PhaseWhole(early, t[1..]);
      assert t == [t[0]] + t[1..];
    }
  }

  /** The two sides together do what was there, each effect as often. */
  lemma {:induction false} PhasesPermute(t: seq<Effect>)
    ensures multiset(Phase(true, t) + Phase(false, t)) == multiset(t)
  {
    if t != [] {
      PhasesPermute(t[1..]);
      assert t == [t[0]] + t[1..];
    }
  }

  /** The jail of the child right before it enters: an init of its own mounts /proc itself. */
  function InChild(j: Jail): Jail {
    if Pids in j.flags && !(DoInit in j.flags && RunAsInit !in j.flags) then j.(flags := j.flags - {RemountProcRo}) else j
  }

  /** One entry, without the preloaded library. */
  function Single(w: World, j: Jail): Run {
    Entered(w, InChild(j).(flags := InChild(j).flags - {Pids}))
  }

  /** The launching side's entry, before execve. */
  function First(w: World, j: Jail): Run { Entered(w, BeforeExec(InChild(j))) }

  /** The preloaded library's entry, with the jail it received from a parent that knows the child's id. */
  function Second(w: World, j: Jail, initpid: S32): Run {
    Entered(w, BeforeEnter(Restored(j.(settings := j.settings.(initpid := initpid)))))
  }

  /** How the jails of the launching side (`f`) and of the receiving side (`n`) relate to the
      one jail (`s`) of an entry that is not split. */
  predicate Parted(s: Jail, f: Jail, n: Jail) {
    && f == BeforeExec(s)
    && n == BeforeEnter(s).(settings := n.settings, pidFilePath := None, uidmap := None, gidmap := None, preloadPath := None,
                            filename := None, filterProg := SentFilter(s), hooks := [])
    && s.settings == n.settings.(initpid := s.settings.initpid)
    && s.hooks == [] && Pids !in s.flags
  }

  lemma JailsParted(j: Jail, initpid: S32)
    requires j.hooks == []
    ensures Parted(InChild(j).(flags := InChild(j).flags - {Pids}), BeforeExec(InChild(j)),
                   BeforeEnter(Restored(j.(settings := j.settings.(initpid := initpid)))))
  {
    var s := InChild(j).(flags := InChild(j).flags - {Pids});
    assert s.flags * KEPT == InChild(j).flags * KEPT;
    assert s.flags - DROPPED == j.flags - DROPPED;
  }

  /** A trace, and its two phases. */
  predicate Splits(s: seq<Effect>, f: seq<Effect>, n: seq<Effect>) {
    f == Phase(true, s) && n == Phase(false, s)
  }

  lemma SplitsSum(s: seq<Effect>, f: seq<Effect>, n: seq<Effect>, s': seq<Effect>, f': seq<Effect>, n': seq<Effect>)
    requires Splits(s, f, n) && Splits(s', f', n')
    ensures Splits(s + s', f + f', n + n')
  {
    PhaseSum(true, s, s');
    PhaseSum(false, s, s');
  }

  predicate OnlyLate(s: Jail, f: Jail, n: Jail, x: Flag) { x !in f.flags && (x in n.flags <==> x in s.flags) }

  predicate OnlyEarly(s: Jail, f: Jail, n: Jail, x: Flag) { (x in f.flags <==> x in s.flags) && x !in n.flags }

  lemma LateFlag(s: Jail, f: Jail, n: Jail, x: Flag)
    requires Parted(s, f, n) && x !in KEPT && x !in DROPPED
    ensures OnlyLate(s, f, n, x)
  {
  }

  lemma EarlyFlag(s: Jail, f: Jail, n: Jail, x: Flag)
    requires Parted(s, f, n) && x in KEPT && x in DROPPED
    ensures OnlyEarly(s, f, n, x)
  {
  }

  /** What the two sides know of the jail besides its flags. */
  predicate SameFields(s: Jail, f: Jail, n: Jail) {
    && f.settings == s.settings && s.settings == n.settings.(initpid := s.settings.initpid)
    && f.mounts == [] && n.mounts == s.mounts && f.fsRules == [] && n.fsRules == s.fsRules && n.fsRulesFd == s.fsRulesFd
    && f.hooks == [] && n.hooks == [] && s.hooks == []
    && f.remounts == s.remounts && f.remountMode == s.remountMode && f.hostname == s.hostname
    && n.user == s.user && n.supplGids == s.supplGids && n.supplGidCount == s.supplGidCount
    && n.chrootdir == s.chrootdir && n.altSyscallTable == s.altSyscallTable && n.filterProg == SentFilter(s)
  }

  lemma PartedFields(s: Jail, f: Jail, n: Jail)
    requires Parted(s, f, n)
    ensures SameFields(s, f, n)
  {
  }

  lemma MountNsSplits(s: Jail, f: Jail, n: Jail)
    requires Parted(s, f, n)
    ensures MountNs(f) == MountNs(s) && MountNs(n) == Run([], true)
    ensures Splits(MountNs(s).trace, MountNs(f).trace, [])
  {
    hide Parted;
    PartedFields(s, f, n);
    EarlyFlag(s, f, n, Vfs);
    EarlyFlag(s, f, n, EnterVfs);
    PhaseWhole(true, MountNs(s).trace);
  }

  lemma WhenLate(s: Jail, f: Jail, n: Jail, x: Flag, e: Effect)
    requires OnlyLate(s, f, n, x) && !Early(e)
    ensures Splits(When(x in s.flags, e), When(x in f.flags, e), When(x in n.flags, e))
  {
    PhaseWhole(false, When(x in s.flags, e));
  }

  lemma UtsSplits(s: Jail, f: Jail, n: Jail)
    requires Parted(s, f, n)
    ensures Splits(UtsNs(s), UtsNs(f), UtsNs(n))
  {
    hide Parted;
    PartedFields(s, f, n);
    EarlyFlag(s, f, n, Uts);
    PhaseWhole(true, UtsNs(s));
  }

  lemma CgroupSplits(s: Jail, f: Jail, n: Jail)
    requires Parted(s, f, n)
    ensures Splits(CgroupNs(s), CgroupNs(f), CgroupNs(n))
  {
    hide Parted;
    EarlyFlag(s, f, n, NsCgroups);
    PhaseWhole(true, CgroupNs(s));
  }

  lemma NetSplits(s: Jail, f: Jail, n: Jail)
    requires Parted(s, f, n) && !(Net in s.flags && EnterNet in s.flags)
    ensures Splits(NetNs(s), NetNs(f), NetNs(n))
  {
    hide Parted;
    PartedFields(s, f, n);
    EarlyFlag(s, f, n, Net);
    LateFlag(s, f, n, EnterNet);
    PhaseWhole(EnterNet !in s.flags, NetNs(s));
  }

  lemma NamespacesSplit(s: Jail, f: Jail, n: Jail)
    requires Parted(s, f, n) && !(Net in s.flags && EnterNet in s.flags)
    ensures Splits(Namespaces(s), Namespaces(f), Namespaces(n))
  {
    hide Parted, Splits, Namespaces, UtsNs, NetNs, CgroupNs, When;
    LateFlag(s, f, n, Ipc);
    LateFlag(s, f, n, NewSessionKeyring);
    WhenLate(s, f, n, Ipc, UnshareIpc);
    WhenLate(s, f, n, NewSessionKeyring, JoinKeyring);
    UtsSplits(s, f, n);
    NetSplits(s, f, n);
    CgroupSplits(s, f, n);
    NamespaceParts(s, f, n);
  }

  lemma NamespaceParts(s: Jail, f: Jail, n: Jail)
    requires Splits(IpcNs(s), IpcNs(f), IpcNs(n)) && Splits(UtsNs(s), UtsNs(f), UtsNs(n))
    requires Splits(NetNs(s), NetNs(f), NetNs(n)) && Splits(CgroupNs(s), CgroupNs(f), CgroupNs(n))
    requires var k := (j: Jail) => When(NewSessionKeyring in j.flags, JoinKeyring); Splits(k(s), k(f), k(n))
    ensures Splits(Namespaces(s), Namespaces(f), Namespaces(n))
  {
    hide Splits, IpcNs, UtsNs, NetNs, CgroupNs, When;
    var k := (j: Jail) => When(NewSessionKeyring in j.flags, JoinKeyring);
    SplitsSum(IpcNs(s), IpcNs(f), IpcNs(n), UtsNs(s), UtsNs(f), UtsNs(n));
    SplitsSum(IpcNs(s) + UtsNs(s), IpcNs(f) + UtsNs(f), IpcNs(n) + UtsNs(n), NetNs(s), NetNs(f), NetNs(n));
    SplitsSum(IpcNs(s) + UtsNs(s) + NetNs(s), IpcNs(f) + UtsNs(f) + NetNs(f), IpcNs(n) + UtsNs(n) + NetNs(n),
              CgroupNs(s), CgroupNs(f), CgroupNs(n));
    SplitsSum(IpcNs(s) + UtsNs(s) + NetNs(s) + CgroupNs(s), IpcNs(f) + UtsNs(f) + NetNs(f) + CgroupNs(f),
              IpcNs(n) + UtsNs(n) + NetNs(n) + CgroupNs(n), k(s), k(f), k(n));
  }

  lemma {:induction false} MountAllSame(s: Jail, n: Jail, ms: seq<Mount>)
    requires s.chrootdir == n.chrootdir && s.settings.uid == n.settings.uid && s.settings.gid == n.settings.gid
    requires MountDev in s.flags <==> MountDev in n.flags
    ensures MountAll(s, ms) == MountAll(n, ms)
  {
    if ms != [] {
      MountAllSame(s, n, ms[1..]);
    }
  }

  lemma MountsSplit(s: Jail, f: Jail, n: Jail)
    requires Parted(s, f, n)
    ensures Splits(Mounts(s), Mounts(f), Mounts(n))
  {
    hide Parted;
    PartedFields(s, f, n);
    LateFlag(s, f, n, MountDev);
    MountAllSame(s, n, s.mounts);
    PhaseWhole(false, Mounts(s));
  }

  lemma RootsSplit(s: Jail, f: Jail, n: Jail)
    requires Parted(s, f, n)
    ensures Splits(Roots(s), Roots(f), Roots(n))
  {
    hide Parted;
    PartedFields(s, f, n);
    LateFlag(s, f, n, Chroot);
    LateFlag(s, f, n, PivotRoot);
    PhaseWhole(false, Roots(s));
  }

  lemma TmpSplits(s: Jail, f: Jail, n: Jail)
    requires Parted(s, f, n)
    ensures Splits(Tmp(s), Tmp(f), Tmp(n))
  {
    hide Parted;
    PartedFields(s, f, n);
    LateFlag(s, f, n, MountTmp);
    LateFlag(s, f, n, Chroot);
    LateFlag(s, f, n, PivotRoot);
    PhaseWhole(false, Tmp(s));
  }

  /** /proc is remounted while some other root is in place: the launching side acts in the outer one. */
  predicate ProcMoves(j: Jail) {
    RemountProcRo in j.flags && (Chroot in j.flags || PivotRoot in j.flags)
  }

  lemma UsernsSame(s: Jail, f: Jail, n: Jail)
    requires Parted(s, f, n)
    ensures Userns in f.flags <==> Userns in s.flags
  {
  }

  lemma ProcSplits(s: Jail, f: Jail, n: Jail)
    requires Parted(s, f, n) && !ProcMoves(s)
    ensures Splits(Proc(s), Proc(f), Proc(n))
  {
    hide Parted;
    EarlyFlag(s, f, n, RemountProcRo);
    UsernsSame(s, f, n);
    LateFlag(s, f, n, Chroot);
    LateFlag(s, f, n, PivotRoot);
    PhaseWhole(true, Proc(s));
  }

  lemma BoundsSplit(s: Jail, f: Jail, n: Jail)
    requires Parted(s, f, n)
    ensures Splits(Bounds(s), Bounds(f), Bounds(n))
  {
    hide Parted;
    PartedFields(s, f, n);
    LateFlag(s, f, n, CapbsetDrop);
    LateFlag(s, f, n, UseCaps);
    LateFlag(s, f, n, SetAmbientCaps);
    PhaseWhole(false, Bounds(s));
  }

  lemma FilesystemSplits(s: Jail, f: Jail, n: Jail)
    requires Parted(s, f, n) && !ProcMoves(s)
    ensures Splits(Filesystem(s), Filesystem(f), Filesystem(n))
  {
    hide Parted, Splits, Mounts, Roots, Tmp, Proc, Bounds;
    MountsSplit(s, f, n);
    RootsSplit(s, f, n);
    TmpSplits(s, f, n);
    ProcSplits(s, f, n);
    BoundsSplit(s, f, n);
    SplitsSum(Mounts(s), Mounts(f), Mounts(n), Roots(s), Roots(f), Roots(n));
    SplitsSum(Mounts(s) + Roots(s), Mounts(f) + Roots(f), Mounts(n) + Roots(n), Tmp(s), Tmp(f), Tmp(n));
    SplitsSum(Mounts(s) + Roots(s) + Tmp(s), Mounts(f) + Roots(f) + Tmp(f), Mounts(n) + Roots(n) + Tmp(n),
              Proc(s), Proc(f), Proc(n));
    SplitsSum(Mounts(s) + Roots(s) + Tmp(s) + Proc(s), Mounts(f) + Roots(f) + Tmp(f) + Proc(f),
              Mounts(n) + Roots(n) + Tmp(n) + Proc(n), Bounds(s), Bounds(f), Bounds(n));
  }

  lemma UgidSame(s: Jail, f: Jail, n: Jail)
    requires Parted(s, f, n)
    ensures DropUgid(n) == DropUgid(s) && DropUgid(f) == Run([], true)
    ensures forall e :: e in DropUgid(s).trace ==> !Early(e)
  {
    hide Parted;
    PartedFields(s, f, n);
    LateFlag(s, f, n, InheritSupplGids);
    LateFlag(s, f, n, KeepSupplGids);
    LateFlag(s, f, n, SetSupplGids);
    LateFlag(s, f, n, DisableSetgroups);
    LateFlag(s, f, n, Uid);
    LateFlag(s, f, n, Gid);
  }

  lemma LandlockSame(w: World, s: Jail, f: Jail, n: Jail)
    requires Parted(s, f, n)
    ensures Landlock(w, n) == Landlock(w, s) && Landlock(w, f) == []
    ensures forall e :: e in Landlock(w, s) ==> !Early(e)
  {
    PartedFields(s, f, n);
    assert EnableFsRestrictions in n.flags <==> EnableFsRestrictions in s.flags;
  }

  lemma InstallSame(k: Kernel, s: Jail, f: Jail, n: Jail)
    requires Parted(s, f, n) && Coherent(k, s) && SeccompFilter in s.flags
    ensures Install(n) == Install(s)
  {
    hide Parted;
    PartedFields(s, f, n);
    LateFlag(s, f, n, SeccompFilterTsync);
    LateFlag(s, f, n, SeccompFilterAllowSpeculation);
  }

  lemma SigsysSame(w: World, s: Jail, f: Jail, n: Jail)
    requires Parted(s, f, n)
    ensures SigsysSetup(w, n) == SigsysSetup(w, s)
  {
    hide Parted;
    LateFlag(s, f, n, SeccompFilterTsync);
    LateFlag(s, f, n, SeccompFilterLogging);
  }

  /** The filter that is installed is the one that was set: an empty one, which is not sent, is refused either way. */
  lemma FilterSame(w: World, k: Kernel, s: Jail, f: Jail, n: Jail)
    requires Parted(s, f, n) && Coherent(k, s)
    ensures Filter(w, n) == Filter(w, s) && Filter(w, f) == Run([], true)
  {
    hide Parted, Coherent, Install, SigsysSetup;
    LateFlag(s, f, n, SeccompFilter);
    if SeccompFilter in s.flags {
      SigsysSame(w, s, f, n);
      InstallSame(k, s, f, n);
    }
  }

  lemma FilterIsLate(w: World, j: Jail)
    ensures forall e :: e in Filter(w, j).trace ==> !Early(e)
  {
    assert forall e :: e in SigsysSetup(w, j) ==> e.CatchSigsys? || e.ResetSigsys?;
    assert forall e :: e in Install(j).trace ==> e.InstallFilter?;
    hide SigsysSetup, Install;
  }

  lemma CapsSame(s: Jail, f: Jail, n: Jail)
    requires Parted(s, f, n)
    ensures DropCaps(n) == DropCaps(s) && DropCaps(f) == []
    ensures forall e :: e in DropCaps(s) ==> !Early(e)
  {
    hide Parted;
    PartedFields(s, f, n);
    LateFlag(s, f, n, UseCaps);
    LateFlag(s, f, n, SetAmbientCaps);
  }

  /** Giving up privileges belongs entirely to the receiving side. */
  lemma DropSplits(w: World, k: Kernel, s: Jail, f: Jail, n: Jail)
    requires Parted(s, f, n) && Coherent(k, s)
    ensures Drop(w, n) == Drop(w, s) && Drop(w, f) == Run([], true)
    ensures Splits(Drop(w, s).trace, [], Drop(w, n).trace)
  {
    hide Parted, Coherent, DropUgid, Landlock, Filter, DropCaps;
    UgidSame(s, f, n);
    LandlockSame(w, s, f, n);
    FilterSame(w, k, s, f, n);
    FilterIsLate(w, s);
    CapsSame(s, f, n);
    LateFlag(s, f, n, NoNewPrivs);
    assert forall e :: e in Drop(w, s).trace ==> !Early(e);
    PhaseWhole(false, Drop(w, s).trace);
  }

  lemma FinalSplits(s: Jail, f: Jail, n: Jail)
    requires Parted(s, f, n)
    ensures Splits(Final(s), Final(f), Final(n))
  {
    hide Parted;
    PartedFields(s, f, n);
    LateFlag(s, f, n, AltSyscall);
    LateFlag(s, f, n, Seccomp);
    PhaseWhole(false, Final(s));
  }

  function Trace(w: World, j: Jail): seq<Effect> {
    MountNs(j).trace + ((Namespaces(j) + Filesystem(j)) + (Drop(w, j).trace + Final(j)))
  }

  lemma EnteredTrace(w: World, j: Jail)
    ensures Entered(w, j).alive <==> Guard(j).alive && MountNs(j).alive && Drop(w, j).alive
    ensures Entered(w, j).alive ==> Entered(w, j).trace == Trace(w, j)
  {
    hide MountNs, Drop, Namespaces, Filesystem, Final;
  }

  /** The two sides act as one: no network namespace is both made and joined, and /proc is not
      remounted by a jail that changes its root. */
  predicate SplitsCleanly(j: Jail) {
    !(Net in j.flags && EnterNet in j.flags) && !ProcMoves(InChild(j))
  }

  lemma TracesSplit(w: World, k: Kernel, s: Jail, f: Jail, n: Jail)
    requires Parted(s, f, n) && Coherent(k, s) && SplitsCleanly(s)
    ensures Splits(Trace(w, s), Trace(w, f), Trace(w, n))
  {
    NotInNamespace(s, f, n);
    hide Parted, Splits, MountNs, Drop, Namespaces, Filesystem, Final, Coherent, InChild;
    MountNsSplits(s, f, n);
    NamespacesSplit(s, f, n);
    FilesystemSplits(s, f, n);
    DropSplits(w, k, s, f, n);
    FinalSplits(s, f, n);
    SplitsSum(Namespaces(s), Namespaces(f), Namespaces(n), Filesystem(s), Filesystem(f), Filesystem(n));
    SplitsSum(Drop(w, s).trace, [], Drop(w, n).trace, Final(s), Final(f), Final(n));
    SplitsSum(Namespaces(s) + Filesystem(s), Namespaces(f) + Filesystem(f), Namespaces(n) + Filesystem(n),
              Drop(w, s).trace + Final(s), [] + Final(f), Drop(w, n).trace + Final(n));
    SplitsSum(MountNs(s).trace, MountNs(f).trace, [],
              (Namespaces(s) + Filesystem(s)) + (Drop(w, s).trace + Final(s)),
              (Namespaces(f) + Filesystem(f)) + ([] + Final(f)),
              (Namespaces(n) + Filesystem(n)) + (Drop(w, n).trace + Final(n)));
  }

  lemma NotInNamespace(s: Jail, f: Jail, n: Jail)
    requires Parted(s, f, n)
    ensures InChild(s) == s && Pids !in s.flags && Pids !in f.flags && Pids !in n.flags
  {
  }

  /** An effect that only happens when the jail asks for it, with what the jail says and in the root the jail is
      then in. */
  predicate Asked(j: Jail, e: Effect) {
    match e
    case UnshareIpc => Ipc in j.flags
    case UnshareUts => Uts in j.flags
    case NameHost(name) => Uts in j.flags && j.hostname == Some(name)
    case JoinNet(fd) => EnterNet in j.flags && fd == j.settings.netnsFd
    case UnshareNet => Net in j.flags && EnterNet !in j.flags
    case ConfigureLoopback => Net in j.flags && EnterNet !in j.flags
    case UnshareCgroups => NsCgroups in j.flags
    case JoinKeyring => NewSessionKeyring in j.flags
    case PrepareDev => MountDev in j.flags
    case MountOn(_, _, _, _, _) => j.mounts != []
    case MoveDev(_) => MountDev in j.flags
    case ChangeRoot(dir) => Chroot in j.flags && dir == j.chrootdir
    case PivotTo(dir) => PivotRoot in j.flags && dir == j.chrootdir
    case MountTmpfs(within, _) => MountTmp in j.flags && within == RootOf(j)
    case DetachProc(within) => RemountProcRo in j.flags && within == RootOf(j)
    case MountProcReadOnly(within) => RemountProcRo in j.flags && within == RootOf(j)
    case BoundCaps(keep) => CapbsetDrop in j.flags && keep == j.settings.capBset
    case LockSecurebits(skip, keepCaps) =>
      UseCaps in j.flags && skip == j.settings.securebitsSkipMask && keepCaps == (SetAmbientCaps !in j.flags)
    case InitGroups(user, group) => InheritSupplGids in j.flags && user == j.user && group == j.settings.usergid
    case SetGroups(count, list) => SetSupplGids in j.flags && count == j.supplGidCount && list == j.supplGids
    case ClearGroups =>
      && (Uid in j.flags || Gid in j.flags) && DisableSetgroups !in j.flags
      && InheritSupplGids !in j.flags && SetSupplGids !in j.flags && KeepSupplGids !in j.flags
    case BecomeGroup(group) => Gid in j.flags && group == j.settings.gid
    case BecomeUser(owner) => Uid in j.flags && owner == j.settings.uid
    case LimitCaps(caps, skip, ambient) =>
      && UseCaps in j.flags && caps == j.settings.caps && skip == j.settings.securebitsSkipMask
      && ambient == (SetAmbientCaps in j.flags)
    case ForbidNewPrivs => NoNewPrivs in j.flags
    case AddRule(fd, rule) => EnableFsRestrictions in j.flags && fd == j.fsRulesFd && rule in j.fsRules
    case RestrictSelf(fd) => EnableFsRestrictions in j.flags && fd == j.fsRulesFd && j.fsRules != []
    case CatchSigsys => SeccompFilter in j.flags
    case ResetSigsys => SeccompFilter in j.flags && SeccompFilterTsync in j.flags
    case InstallFilter(tsync, speculation, prog) =>
      && SeccompFilter in j.flags && j.filterProg == Some(prog)
      && tsync == (SeccompFilterTsync in j.flags) && speculation == (SeccompFilterAllowSpeculation in j.flags)
    case SwitchSyscallTable(table) => AltSyscall in j.flags && table == j.altSyscallTable
    case StrictSeccomp => Seccomp in j.flags
    case _ => true
  }

  predicate Honest(j: Jail, t: seq<Effect>) { forall e :: e in t ==> Asked(j, e) }

  lemma HonestSum(j: Jail, s: seq<Effect>, t: seq<Effect>)
    requires Honest(j, s) && Honest(j, t)
    ensures Honest(j, s + t)
  {
    hide Asked;
  }

  lemma HonestMountNs(j: Jail)
    ensures Honest(j, MountNs(j).trace)
  {
  }

  lemma HonestUts(j: Jail)
    ensures Honest(j, IpcNs(j) + UtsNs(j))
  {
  }

  lemma HonestNet(j: Jail)
    ensures Honest(j, NetNs(j))
  {
  }

  lemma HonestCgroups(j: Jail)
    ensures Honest(j, CgroupNs(j)) && Honest(j, When(NewSessionKeyring in j.flags, JoinKeyring))
  {
  }

  lemma HonestNamespaces(j: Jail)
    ensures Honest(j, Namespaces(j))
  {
    hide Honest, IpcNs, UtsNs, NetNs, CgroupNs, When;
    HonestUts(j);
    HonestNet(j);
    HonestCgroups(j);
    HonestSum(j, IpcNs(j) + UtsNs(j), NetNs(j));
    HonestSum(j, IpcNs(j) + UtsNs(j) + NetNs(j), CgroupNs(j));
    HonestSum(j, IpcNs(j) + UtsNs(j) + NetNs(j) + CgroupNs(j), When(NewSessionKeyring in j.flags, JoinKeyring));
  }

  lemma HonestMounts(j: Jail)
    ensures Honest(j, Mounts(j))
  {
  }

  lemma HonestRoots(j: Jail)
    ensures Honest(j, Roots(j))
  {
  }

  lemma HonestProc(j: Jail)
    ensures Honest(j, Tmp(j)) && Honest(j, Proc(j))
  {
  }

  lemma HonestBounds(j: Jail)
    ensures Honest(j, Bounds(j))
  {
    var hooks := Hooks(j.hooks, PreDropCaps);
    assert Honest(j, hooks);
    hide Hooks;
  }

  lemma HonestFilesystem(j: Jail)
    ensures Honest(j, Filesystem(j))
  {
    hide Honest, Mounts, Roots, Tmp, Proc, Bounds;
    HonestMounts(j);
    HonestRoots(j);
    HonestProc(j);
    HonestBounds(j);
    HonestSum(j, Mounts(j), Roots(j));
    HonestSum(j, Mounts(j) + Roots(j), Tmp(j));
    HonestSum(j, Mounts(j) + Roots(j) + Tmp(j), Proc(j));
    HonestSum(j, Mounts(j) + Roots(j) + Tmp(j) + Proc(j), Bounds(j));
  }

  lemma HonestUgid(j: Jail)
    ensures Honest(j, DropUgid(j).trace)
  {
    HonestGroups(j);
    hide Groups, Honest;
    var group, user := When(Gid in j.flags, BecomeGroup(j.settings.gid)), When(Uid in j.flags, BecomeUser(j.settings.uid));
    HonestWhen(j, Gid in j.flags, BecomeGroup(j.settings.gid));
    HonestWhen(j, Uid in j.flags, BecomeUser(j.settings.uid));
    HonestWhen(j, false, UnshareIpc);
    HonestSum(j, Groups(j), group);
    HonestSum(j, Groups(j) + group, user);
  }

  lemma HonestWhen(j: Jail, c: bool, e: Effect)
    requires c ==> Asked(j, e)
    ensures Honest(j, When(c, e)) && Honest(j, [])
  {
  }

  lemma HonestGroups(j: Jail)
    ensures Honest(j, Groups(j))
  {
  }

  lemma {:induction false} RulesListed(fd: S32, rs: seq<FsRule>)
    ensures forall e :: e in Rules(fd, rs) ==> e.AddRule? && e.fd == fd && e.rule in rs
  {
    if rs != [] {
      RulesListed(fd, rs[1..]);
    }
  }

  lemma HonestLandlock(w: World, j: Jail)
    ensures Honest(j, Landlock(w, j))
  {
    RulesListed(j.fsRulesFd, j.fsRules);
    hide Rules;
  }

  lemma HonestFilter(w: World, j: Jail)
    ensures Honest(j, Filter(w, j).trace)
  {
    HonestWhen(j, false, UnshareIpc);
    if SeccompFilter in j.flags {
      HonestSigsys(w, j);
      HonestInstall(j);
      hide SigsysSetup, Install, Honest;
      HonestSum(j, SigsysSetup(w, j), Install(j).trace);
    }
  }

  lemma HonestSigsys(w: World, j: Jail)
    requires SeccompFilter in j.flags
    ensures Honest(j, SigsysSetup(w, j))
  {
  }

  lemma HonestInstall(j: Jail)
    requires SeccompFilter in j.flags
    ensures Honest(j, Install(j).trace)
  {
  }

  lemma HonestRest(j: Jail)
    ensures Honest(j, DropCaps(j)) && (NoNewPrivs in j.flags ==> Honest(j, [ForbidNewPrivs])) && Honest(j, Final(j))
  {
  }

  lemma HonestDrop(w: World, j: Jail)
    ensures Honest(j, Drop(w, j).trace) && Honest(j, Final(j))
  {
    hide Honest, DropUgid, Landlock, Filter, DropCaps, Final;
    HonestUgid(j);
    HonestLandlock(w, j);
    HonestFilter(w, j);
    HonestRest(j);
    var caps, forbid: seq<Effect>, rules := DropCaps(j), [ForbidNewPrivs], Landlock(w, j);
    var ugid, filter := DropUgid(j).trace, Filter(w, j).trace;
    if NoNewPrivs in j.flags {
      HonestSum(j, caps, forbid);
      HonestSum(j, caps + forbid, rules);
      HonestSum(j, caps + forbid + rules, filter);
      HonestSum(j, ugid, caps + forbid + rules + filter);
    }
    HonestSum(j, ugid, caps);
    HonestSum(j, filter, ugid + caps);
    HonestSum(j, rules, filter + (ugid + caps));
    HonestSum(j, filter, ugid);
    HonestSum(j, rules, filter + ugid);
    HonestSum(j, rules, filter);
  }

  lemma HonestTrace(w: World, j: Jail)
    ensures Honest(j, Trace(w, j))
  {
    hide Honest, MountNs, Namespaces, Filesystem, Drop, Final;
    HonestMountNs(j);
    HonestNamespaces(j);
    HonestFilesystem(j);
    HonestDrop(w, j);
    HonestSum(j, Namespaces(j), Filesystem(j));
    HonestSum(j, Drop(w, j).trace, Final(j));
    HonestSum(j, Namespaces(j) + Filesystem(j), Drop(w, j).trace + Final(j));
    HonestSum(j, MountNs(j).trace, (Namespaces(j) + Filesystem(j)) + (Drop(w, j).trace + Final(j)));
  }

  lemma InTrace(w: World, j: Jail, e: Effect)
    requires e in Namespaces(j) || e in Filesystem(j)
    ensures e in Trace(w, j)
  {
    hide MountNs, Namespaces, Filesystem, Drop, Final;
  }

  /** When both network flags are set the launching side makes a namespace that the single
      entry would not have made. */
  lemma NetworkTwice(w: World, s: Jail, f: Jail, n: Jail)
    requires Parted(s, f, n) && Net in s.flags && EnterNet in s.flags
    ensures UnshareNet in Trace(w, f) && UnshareNet !in Trace(w, s)
  {
    hide Parted, Trace;
    EarlyFlag(s, f, n, Net);
    LateFlag(s, f, n, EnterNet);
    assert UnshareNet in NetNs(f);
    InTrace(w, f, UnshareNet);
    HonestTrace(w, s);
  }

  lemma ProcInTrace(w: World, j: Jail)
    requires RemountProcRo in j.flags
    ensures MountProcReadOnly(RootOf(j)) in Trace(w, j)
  {
    hide Mounts, Roots, Tmp, Bounds, Trace;
    assert MountProcReadOnly(RootOf(j)) in Proc(j);
    InTrace(w, j, MountProcReadOnly(RootOf(j)));
  }

  /** When the jail changes its root, the launching side remounts the /proc of the outer root; a
      single entry remounts the one inside. */
  lemma ProcOutside(w: World, s: Jail, f: Jail, n: Jail)
    requires Parted(s, f, n) && ProcMoves(s)
    ensures MountProcReadOnly(Outer) in Trace(w, f) && MountProcReadOnly(Outer) !in Trace(w, s)
    ensures MountProcReadOnly(Inner(s.chrootdir)) in Trace(w, s)
  {
    hide Parted, Trace;
    EarlyFlag(s, f, n, RemountProcRo);
    LateFlag(s, f, n, Chroot);
    LateFlag(s, f, n, PivotRoot);
    ProcInTrace(w, f);
    ProcInTrace(w, s);
    HonestTrace(w, s);
  }

  /** A split entry gets through exactly when the single one does. */
  lemma AliveTogether(w: World, k: Kernel, s: Jail, f: Jail, n: Jail)
    requires Parted(s, f, n) && Coherent(k, s)
    ensures Entered(w, f).alive && Entered(w, n).alive <==> Entered(w, s).alive
  {
    hide Parted, Coherent, MountNs, Drop, Entered, Trace, Splits;
    EnteredTrace(w, s);
    EnteredTrace(w, f);
    EnteredTrace(w, n);
    MountNsSplits(s, f, n);
    DropSplits(w, k, s, f, n);
    LateFlag(s, f, n, InheritSupplGids);
    PartedFields(s, f, n);
    NotInNamespace(s, f, n);
  }

  lemma SplitExactly(w: World, k: Kernel, s: Jail, f: Jail, n: Jail)
    requires Parted(s, f, n) && Coherent(k, s) && Entered(w, s).alive
    ensures SplitsCleanly(s) ==> Splits(Entered(w, s).trace, Entered(w, f).trace, Entered(w, n).trace)
    ensures SplitsCleanly(s) <==> multiset(Entered(w, f).trace + Entered(w, n).trace) == multiset(Entered(w, s).trace)
  {
    hide Parted, Coherent, Trace, Entered, Phase, InChild;
    AliveTogether(w, k, s, f, n);
    EnteredTrace(w, s);
    EnteredTrace(w, f);
    EnteredTrace(w, n);
    NotInNamespace(s, f, n);
    if SplitsCleanly(s) {
      TracesSplit(w, k, s, f, n);
      PhasesPermute(Trace(w, s));
    } else if Net in s.flags && EnterNet in s.flags {
      NetworkTwice(w, s, f, n);
      assert multiset(Trace(w, f) + Trace(w, n))[UnshareNet] > 0;
    } else {
      ProcOutside(w, s, f, n);
      assert multiset(Trace(w, f) + Trace(w, n))[MountProcReadOnly(Outer)] > 0;
    }
  }

  /** The jail of an entry that is not split. */
  function Whole(j: Jail): Jail { InChild(j).(flags := InChild(j).flags - {Pids}) }

  lemma WholeIs(k: Kernel, j: Jail, initpid: S32)
    requires Coherent(k, j) && j.hooks == []
    ensures Parted(Whole(j), BeforeExec(InChild(j)), BeforeEnter(Restored(j.(settings := j.settings.(initpid := initpid)))))
    ensures Coherent(k, Whole(j)) && (SplitsCleanly(Whole(j)) <==> SplitsCleanly(j))
    ensures NoNewPrivs in Whole(j).flags <==> NoNewPrivs in j.flags
  {
    JailsParted(j, initpid);
  }

  /** The split refines the single entry.  For a hook-free jail, both sides get through exactly
      when the single entry does; then the launching side performs exactly the effects that
      outlive execve and the preloaded library exactly the others, each in the order of the
      single entry and each exactly once, in the same root - if and only if the jail does not both
      make and join a network namespace and does not remount /proc while changing its root. */
  lemma SplitEnter(w: World, k: Kernel, j: Jail, initpid: S32)
    requires Coherent(k, j) && j.hooks == []
    ensures First(w, j).alive && Second(w, j, initpid).alive <==> Single(w, j).alive
    ensures Single(w, j).alive && SplitsCleanly(j) ==>
              First(w, j).trace == Phase(true, Single(w, j).trace)
              && Second(w, j, initpid).trace == Phase(false, Single(w, j).trace)
    ensures Single(w, j).alive ==>
              (SplitsCleanly(j) <==>
               multiset(First(w, j).trace + Second(w, j, initpid).trace) == multiset(Single(w, j).trace))
  {
    hide Parted, Coherent, Entered, SplitsCleanly, Phase, BeforeEnter, BeforeExec, Restored, InChild;
    WholeIs(k, j, initpid);
    var f := BeforeExec(InChild(j));
    var n := BeforeEnter(Restored(j.(settings := j.settings.(initpid := initpid))));
    AliveTogether(w, k, Whole(j), f, n);
    if Single(w, j).alive {
      SplitExactly(w, k, Whole(j), f, n);
    }
  }

  /** "/x" */
  const DIR: CString := [47, 120]

  /** A jail that lives in /x, in a mount namespace and with a read-only /proc. */
  const CHROOTED: Jail := FRESH.(flags := {Vfs, RemountProcRo, Chroot}, chrootdir := Some(DIR))

  /** A jail that asks for nothing else than those three flags can express. */
  predicate AsksLittle(j: Jail) {
    && j.flags <= {Vfs, RemountProcRo, Chroot}
    && j.remounts == [] && j.mounts == [] && j.fsRules == [] && j.hooks == []
  }

  lemma LittleNamespaces(j: Jail)
    requires AsksLittle(j)
    ensures MountNs(j).alive && Namespaces(j) == []
    ensures MountNs(j).trace
         == if Vfs !in j.flags then [] else [UnshareMounts] + When(j.remountMode != 0, RemountRoot(j.remountMode))
  {
  }

  lemma LittleFilesystem(j: Jail)
    requires AsksLittle(j)
    ensures Filesystem(j) == When(Chroot in j.flags, ChangeRoot(j.chrootdir)) + Proc(j)
  {
    hide Proc;
    assert Mounts(j) == [] && Roots(j) == When(Chroot in j.flags, ChangeRoot(j.chrootdir));
    assert Tmp(j) == [] && Bounds(j) == [];
  }

  lemma LittleDrop(w: World, j: Jail)
    requires AsksLittle(j)
    ensures Drop(w, j) == Run([], true) && Final(j) == [] && Guard(j).alive
  {
    assert DropUgid(j) == Run([], true);
    assert DropCaps(j) == [] && Landlock(w, j) == [] && Filter(w, j) == Run([], true);
    hide DropUgid, DropCaps, Landlock, Filter;
  }

  lemma LittleEntry(w: World, j: Jail)
    requires AsksLittle(j)
    ensures Entered(w, j).alive
    ensures Entered(w, j).trace
         == (if Vfs !in j.flags then [] else [UnshareMounts] + When(j.remountMode != 0, RemountRoot(j.remountMode)))
            + (When(Chroot in j.flags, ChangeRoot(j.chrootdir)) + Proc(j))
  {
    hide Proc, MountNs, Namespaces, Filesystem, Drop, Final, Entered, AsksLittle;
    LittleNamespaces(j);
    LittleFilesystem(j);
    LittleDrop(w, j);
    EnteredTrace(w, j);
  }

  /** Its launching side replaces the /proc of the outer root, before the library changes the root. */
  lemma ChrootedProcIsOutside(w: World, initpid: S32)
    ensures !SplitsCleanly(CHROOTED) && Single(w, CHROOTED).alive
    ensures First(w, CHROOTED).trace == [UnshareMounts, RemountRoot(MS_PRIVATE), DetachProc(Outer), MountProcReadOnly(Outer)]
    ensures Second(w, CHROOTED, initpid).trace == [ChangeRoot(Some(DIR))]
    ensures Single(w, CHROOTED).trace
         == [UnshareMounts, RemountRoot(MS_PRIVATE), ChangeRoot(Some(DIR)), DetachProc(Inner(Some(DIR))),
             MountProcReadOnly(Inner(Some(DIR)))]
  {
    hide Entered;
    var j := CHROOTED;
    var f, n := BeforeExec(j), BeforeEnter(Restored(j.(settings := j.settings.(initpid := initpid))));
    assert InChild(j) == j && j.flags - {Pids} == j.flags;
    assert f.flags == {Vfs, RemountProcRo} && n.flags == {Chroot};
    LittleEntry(w, j);
    LittleEntry(w, f);
    LittleEntry(w, n);
  }

  /** The launching side and a library that received `got` together do what a single entry does,
      exactly when the jail splits cleanly. */
  predicate EntersLike(w: World, j: Jail, got: Jail) {
    var second := Entered(w, BeforeEnter(got));
    && (First(w, j).alive && second.alive <==> Single(w, j).alive)
    && (Single(w, j).alive ==>
          (SplitsCleanly(j) <==> multiset(First(w, j).trace + second.trace) == multiset(Single(w, j).trace)))
  }

  /** `minijail_preserve_fd` of one descriptor onto itself. */
  function WithPreserved(s: Settings, fd: S32): Settings {
    if fd < 0 || |s.preservedFds| >= MAX_PRESERVED_FDS then s else s.(preservedFds := s.preservedFds + [FdPair(fd, fd)])
  }

  /** The jail once the run has forked: on both sides a jail with rules opens its ruleset anew, gets the same
      descriptor number in both tables, and preserves it. */
  function Launched(run: Kernel, j: Jail): Jail {
    if j.fsRules == [] then j
    else
      var ready := WithRuleset(run, j);
      ready.(settings := WithPreserved(ready.settings, ready.fsRulesFd))
  }

  /** What the launcher sends: it also knows the child's id. */
  function Dispatched(run: Kernel, j: Jail, initpid: S32): Jail {
    var child := Launched(run, j);
    child.(settings := child.settings.(initpid := initpid))
  }

  /** What must hold of the jail before the run, and of the descriptor the run gets, for the library to accept it. */
  predicate Receivable(run: Kernel, j: Jail) {
    && (j.supplGids.Some? ==> j.supplGidCount <= NGROUPS_MAX)
    && Granting(j.fsRules)
    && (if j.fsRules == [] then j.fsRulesFd else run.rulesetFd) != 0
  }

  /** A ruleset opened as descriptor 0 by the API call does no harm, one opened as 0 by the run does. */
  lemma LaunchedIs(k: Kernel, run: Kernel, j: Jail, initpid: S32)
    requires Coherent(k, j) && run.landlockAbi == k.landlockAbi
    ensures Coherent(k, Launched(run, j)) && Coherent(k, Dispatched(run, j, initpid))
    ensures Restorable(Dispatched(run, j, initpid)) <==> Receivable(run, j)
    ensures Torn(Dispatched(run, j, initpid)) <==> Torn(j)
    ensures Launched(run, j).hooks == j.hooks
  {
    hide Settled;
  }

  lemma CoherentFor(k: Kernel, k': Kernel, j: Jail)
    requires Coherent(k, j) && k.landlockAbi == k'.landlockAbi
    ensures Coherent(k', j)
  {
    hide CoherentMounts, CoherentCounts;
  }

  /** From the API calls to the jailed program.  A jail is received as it was launched exactly when it is receivable,
      holds the filter it announces, and fits the receiver's limit; and then it is entered on both sides with the
      effects of a single entry, if it splits cleanly. */
  lemma {:induction false} PreloadedRun(w: World, l: Layout, k: Kernel, run: Kernel, lib: Kernel, calls: seq<Call>,
                                        j: Jail,
                                        initpid: S32)
    requires Faithful(l) && Builds(l, k, calls, j) && j.hooks == []
    requires run.landlockAbi == lib.landlockAbi == k.landlockAbi && |Wire(l, Dispatched(run, j, initpid))| < TWO64
    ensures var sent := Dispatched(run, j, initpid);
            var received := Received(l, lib, Sent(l, sent));
            && (received == Got(Restored(sent), []) <==> Receivable(run, j) && !Torn(j) && |Wire(l, sent)| <= USHRT_MAX)
            && (!Torn(j) ==> (received.Got? <==> Receivable(run, j) && |Wire(l, sent)| <= USHRT_MAX))
            && (received == Got(Restored(sent), []) ==> EntersLike(w, Launched(run, j), received.jail))
  {
    hide Builds, Entered, SplitsCleanly, BeforeEnter, Restored, InChild, First, Single, Received, Sent, Wire, Coherent;
    hide Receivable, Restorable, Torn, Launched;
    var sent := Dispatched(run, j, initpid);
    BuiltIsCoherent(l, k, calls, j);
    LaunchedIs(k, run, j, initpid);
    CoherentFor(k, lib, sent);
    PipeRoundTrip(l, lib, sent);
    SplitEnter(w, k, Launched(run, j), initpid);
  }

  // ---------------------------------------------------------------- the order of the effects

  /** When an effect is due.  Mounts come before the change of root, /proc is remounted inside the new
      root, capabilities are kept before the user changes, a filter is installed after privileges are
      dropped if and only if new ones are forbidden, that ban comes before Landlock, and strict
      seccomp comes last. */
  function Due(banned: bool, e: Effect): nat {
    match e
    case JoinMountNs(_) => 0
    case UnshareMounts => 1
    case RemountRoot(_) => 2
    case RemountAt(_, _) => 3
    case UnshareIpc => 4
    case UnshareUts => 5
    case NameHost(_) => 6
    case JoinNet(_) => 7
    case UnshareNet => 7
    case ConfigureLoopback => 8
    case UnshareCgroups => 9
    case JoinKeyring => 10
    case PrepareDev => 11
    case MountOn(_, _, _, _, _) => 12
    case MoveDev(_) => 13
    case ChangeRoot(_) => 14
    case PivotTo(_) => 15
    case MountTmpfs(_, _) => 16
    case DetachProc(_) => 17
    case MountProcReadOnly(_) => 18
    case RunHook(_) => 19
    case BoundCaps(_) => 20
    case LockSecurebits(_, _) => 21
    case InitGroups(_, _) => if banned then 22 else 27
    case SetGroups(_, _) => if banned then 22 else 27
    case ClearGroups => if banned then 22 else 27
    case BecomeGroup(_) => if banned then 23 else 28
    case BecomeUser(_) => if banned then 24 else 29
    case LimitCaps(_, _, _) => if banned then 25 else 30
    case ForbidNewPrivs => 26
    case AddRule(_, _) => if banned then 27 else 22
    case RestrictSelf(_) => if banned then 28 else 23
    case CatchSigsys => if banned then 29 else 24
    case ResetSigsys => if banned then 29 else 24
    case InstallFilter(_, _, _) => if banned then 30 else 25
    case SwitchSyscallTable(_) => 31
    case StrictSeccomp => 32
  }

  /** Effects in order, none due outside `[from, to]`. */
  ghost predicate InOrder(banned: bool, t: seq<Effect>, from: nat, to: nat) {
    && (forall i :: 0 <= i < |t| ==> from <= Due(banned, t[i]) <= to)
    && (forall i, k :: 0 <= i < k < |t| ==> Due(banned, t[i]) <= Due(banned, t[k]))
  }

  lemma OrderJoins(banned: bool, s: seq<Effect>, t: seq<Effect>, from: nat, middle: nat, next: nat, to: nat)
    requires InOrder(banned, s, from, middle) && InOrder(banned, t, next, to) && from <= middle <= next <= to
    ensures InOrder(banned, s + t, from, to)
  {
    hide Due;
  }

  lemma AllDueAt(banned: bool, t: seq<Effect>, due: nat)
    requires forall e :: e in t ==> Due(banned, e) == due
    ensures InOrder(banned, t, due, due)
  {
    hide Due;
    assert forall i :: 0 <= i < |t| ==> t[i] in t;
  }

  lemma OrderWidens(banned: bool, t: seq<Effect>, from: nat, middle: nat, to: nat)
    requires InOrder(banned, t, from, middle) && middle <= to
    ensures InOrder(banned, t, from, to)
  {
    hide Due;
  }

  lemma WhenInOrder(banned: bool, c: bool, e: Effect)
    ensures InOrder(banned, When(c, e), Due(banned, e), Due(banned, e))
  {
    hide Due;
  }

  /** Two effects, each under its own condition. */
  lemma PairInOrder(banned: bool, c: bool, e: Effect, c': bool, e': Effect)
    requires Due(banned, e) <= Due(banned, e')
    ensures InOrder(banned, When(c, e) + When(c', e'), Due(banned, e), Due(banned, e'))
  {
    hide Due, When, InOrder;
    WhenInOrder(banned, c, e);
    WhenInOrder(banned, c', e');
    OrderJoins(banned, When(c, e), When(c', e'), Due(banned, e), Due(banned, e), Due(banned, e'), Due(banned, e'));
  }

  lemma MountNsInOrder(banned: bool, j: Jail)
    ensures InOrder(banned, MountNs(j).trace, 0, 3)
  {
    hide InOrder, Remounts;
    var join := JoinMountNs(j.settings.mountnsFd);
    var first := When(EnterVfs in j.flags, join);
    var remounts := Remounts(j.remounts, j.remountMode).trace;
    var root := RemountRoot(j.remountMode);
    AllDueAt(banned, remounts, 3);
    PairInOrder(banned, EnterVfs in j.flags, join, true, UnshareMounts);
    OrderWidens(banned, first + [UnshareMounts], 0, 1, 3);
    WhenInOrder(banned, EnterVfs in j.flags, join);
    OrderWidens(banned, first, 0, 0, 3);
    WhenInOrder(banned, true, root);
    OrderJoins(banned, first + [UnshareMounts], [root], 0, 1, 2, 2);
    assert first + [UnshareMounts] + [root] == first + [UnshareMounts, root];
    OrderJoins(banned, first + [UnshareMounts, root], remounts, 0, 2, 3, 3);
  }

  lemma UtsInOrder(banned: bool, j: Jail)
    ensures InOrder(banned, UtsNs(j), 5, 6)
  {
    hide InOrder;
    var name := NameHost(if j.hostname.Some? then j.hostname.value else []);
    PairInOrder(banned, Uts in j.flags, UnshareUts, Uts in j.flags && j.hostname.Some?, name);
    assert UtsNs(j) == When(Uts in j.flags, UnshareUts) + When(Uts in j.flags && j.hostname.Some?, name);
  }

  lemma NetInOrder(banned: bool, j: Jail)
    ensures InOrder(banned, NetNs(j), 7, 8)
  {
    hide InOrder;
    var join, make := EnterNet in j.flags, EnterNet !in j.flags && Net in j.flags;
    WhenInOrder(banned, join, JoinNet(j.settings.netnsFd));
    OrderWidens(banned, When(join, JoinNet(j.settings.netnsFd)), 7, 7, 8);
    PairInOrder(banned, make, UnshareNet, make, ConfigureLoopback);
    assert join ==> NetNs(j) == When(join, JoinNet(j.settings.netnsFd));
    assert !join ==> NetNs(j) == When(make, UnshareNet) + When(make, ConfigureLoopback);
  }

  lemma NamespacesInOrder(banned: bool, j: Jail)
    ensures InOrder(banned, Namespaces(j), 4, 10)
  {
    hide InOrder, UtsNs, NetNs, When;
    var key := When(NewSessionKeyring in j.flags, JoinKeyring);
    WhenInOrder(banned, Ipc in j.flags, UnshareIpc);
    UtsInOrder(banned, j);
    NetInOrder(banned, j);
    PairInOrder(banned, NsCgroups in j.flags, UnshareCgroups, NewSessionKeyring in j.flags, JoinKeyring);
    OrderJoins(banned, IpcNs(j), UtsNs(j), 4, 4, 5, 6);
    OrderJoins(banned, IpcNs(j) + UtsNs(j), NetNs(j), 4, 6, 7, 8);
    OrderJoins(banned, IpcNs(j) + UtsNs(j) + NetNs(j), CgroupNs(j) + key, 4, 8, 9, 10);
    assert Namespaces(j) == IpcNs(j) + UtsNs(j) + NetNs(j) + (CgroupNs(j) + key);
  }

  lemma MountsInOrder(banned: bool, j: Jail)
    ensures InOrder(banned, Mounts(j), 11, 13)
  {
    hide InOrder, MountAll, When;
    AllDueAt(banned, MountAll(j, j.mounts), 12);
    var first, end := When(MountDev in j.flags, PrepareDev), When(MountDev in j.flags, MoveDev(j.chrootdir));
    WhenInOrder(banned, MountDev in j.flags, PrepareDev);
    WhenInOrder(banned, MountDev in j.flags, MoveDev(j.chrootdir));
    OrderJoins(banned, first, MountAll(j, j.mounts), 11, 11, 12, 12);
    OrderJoins(banned, first + MountAll(j, j.mounts), end, 11, 12, 13, 13);
  }

  lemma RootsInOrder(banned: bool, j: Jail)
    requires j.hooks == []
    ensures InOrder(banned, Roots(j), 14, 15)
  {
    hide InOrder;
    PairInOrder(banned, Chroot in j.flags, ChangeRoot(j.chrootdir), PivotRoot in j.flags, PivotTo(j.chrootdir));
    assert Roots(j) == When(Chroot in j.flags, ChangeRoot(j.chrootdir)) + When(PivotRoot in j.flags, PivotTo(j.chrootdir));
  }

  lemma ProcInOrder(banned: bool, j: Jail)
    ensures InOrder(banned, Proc(j), 17, 18)
  {
    hide InOrder;
    var on := RemountProcRo in j.flags;
    var detach, mount := DetachProc(RootOf(j)), MountProcReadOnly(RootOf(j));
    PairInOrder(banned, on && Userns !in j.flags, detach, on, mount);
    assert Proc(j) == When(on && Userns !in j.flags, detach) + When(on, mount);
  }

  lemma BoundsInOrder(banned: bool, j: Jail)
    requires j.hooks == []
    ensures InOrder(banned, Bounds(j), 20, 21)
  {
    hide InOrder, When;
    var lock := LockSecurebits(j.settings.securebitsSkipMask, SetAmbientCaps !in j.flags);
    PairInOrder(banned, CapbsetDrop in j.flags, BoundCaps(j.settings.capBset), UseCaps in j.flags, lock);
    assert Bounds(j) == When(CapbsetDrop in j.flags, BoundCaps(j.settings.capBset)) + When(UseCaps in j.flags, lock);
  }

  lemma FilesystemInOrder(banned: bool, j: Jail)
    requires j.hooks == []
    ensures InOrder(banned, Filesystem(j), 11, 21)
  {
    hide InOrder, Mounts, Roots, Proc, Bounds, When;
    MountsInOrder(banned, j);
    RootsInOrder(banned, j);
    WhenInOrder(banned, MountTmp in j.flags, MountTmpfs(RootOf(j), j.settings.tmpfsSize));
    ProcInOrder(banned, j);
    BoundsInOrder(banned, j);
    OrderJoins(banned, Mounts(j), Roots(j), 11, 13, 14, 15);
    OrderJoins(banned, Mounts(j) + Roots(j), Tmp(j), 11, 15, 16, 16);
    OrderJoins(banned, Mounts(j) + Roots(j) + Tmp(j), Proc(j), 11, 16, 17, 18);
    OrderJoins(banned, Mounts(j) + Roots(j) + Tmp(j) + Proc(j), Bounds(j), 11, 18, 20, 21);
  }

  lemma GroupsInOrder(banned: bool, j: Jail)
    ensures var due := if banned then 22 else 27; InOrder(banned, Groups(j), due, due)
  {
    hide InOrder;
    AllDueAt(banned, Groups(j), if banned then 22 else 27);
  }

  lemma UgidInOrder(banned: bool, j: Jail)
    ensures var due := if banned then 22 else 27; InOrder(banned, DropUgid(j).trace, due, due + 2)
  {
    hide InOrder, Groups, When;
    var due := if banned then 22 else 27;
    var group, user := BecomeGroup(j.settings.gid), BecomeUser(j.settings.uid);
    GroupsInOrder(banned, j);
    WhenInOrder(banned, Gid in j.flags, group);
    WhenInOrder(banned, Uid in j.flags, user);
    OrderJoins(banned, Groups(j), When(Gid in j.flags, group), due, due, due + 1, due + 1);
    OrderJoins(banned, Groups(j) + When(Gid in j.flags, group), When(Uid in j.flags, user), due, due + 1, due + 2, due + 2);
    AllDueAt(banned, [], due);
    OrderWidens(banned, [], due, due, due + 2);
  }

  lemma LandlockInOrder(banned: bool, w: World, j: Jail)
    ensures var due := if banned then 27 else 22; InOrder(banned, Landlock(w, j), due, due + 1)
  {
    hide InOrder, Rules;
    var due := if banned then 27 else 22;
    var on := EnableFsRestrictions in j.flags && j.fsRules != [];
    var rules := if on && w.landlock then Rules(j.fsRulesFd, j.fsRules) else [];
    var restrict := RestrictSelf(j.fsRulesFd);
    AllDueAt(banned, rules, due);
    WhenInOrder(banned, on && j.fsRulesFd >= 0, restrict);
    OrderJoins(banned, rules, When(on && j.fsRulesFd >= 0, restrict), due, due, due + 1, due + 1);
    assert Landlock(w, j) == rules + When(on && j.fsRulesFd >= 0, restrict);
  }

  lemma FilterInOrder(banned: bool, w: World, j: Jail)
    ensures var due := if banned then 29 else 24; InOrder(banned, Filter(w, j).trace, due, due + 1)
  {
    hide InOrder;
    var due := if banned then 29 else 24;
    AllDueAt(banned, SigsysSetup(w, j), due);
    AllDueAt(banned, Install(j).trace, due + 1);
    OrderJoins(banned, SigsysSetup(w, j), Install(j).trace, due, due, due + 1, due + 1);
    AllDueAt(banned, [], due);
    OrderWidens(banned, [], due, due, due + 1);
  }

  lemma DropInOrder(w: World, j: Jail)
    ensures InOrder(NoNewPrivs in j.flags, Drop(w, j).trace, 22, 30)
  {
    hide InOrder, DropUgid, Landlock, Filter, When;
    var banned := NoNewPrivs in j.flags;
    var caps, rules := DropCaps(j), Landlock(w, j);
    var limit := LimitCaps(j.settings.caps, j.settings.securebitsSkipMask, SetAmbientCaps in j.flags);
    UgidInOrder(banned, j);
    WhenInOrder(banned, UseCaps in j.flags, limit);
    LandlockInOrder(banned, w, j);
    FilterInOrder(banned, w, j);
    if banned {
      AllDueAt(banned, [ForbidNewPrivs], 26);
      OrderJoins(banned, caps, [ForbidNewPrivs], 25, 25, 26, 26);
      OrderJoins(banned, caps + [ForbidNewPrivs], rules, 25, 26, 27, 28);
      var middle := Run(caps + [ForbidNewPrivs] + rules, true);
      ThenInOrder(banned, middle, Filter(w, j), 25, 28, 29, 30);
      ThenInOrder(banned, DropUgid(j), Then(middle, Filter(w, j)), 22, 24, 25, 30);
    } else {
      var ids := Then(DropUgid(j), Run(caps, true));
      ThenInOrder(banned, DropUgid(j), Run(caps, true), 27, 29, 30, 30);
      ThenInOrder(banned, Filter(w, j), ids, 24, 25, 27, 30);
      ThenInOrder(banned, Run(rules, true), Then(Filter(w, j), ids), 22, 23, 24, 30);
    }
  }

  lemma ThenInOrder(banned: bool, a: Run, b: Run, from: nat, middle: nat, next: nat, to: nat)
    requires InOrder(banned, a.trace, from, middle) && InOrder(banned, b.trace, next, to) && from <= middle <= next <= to
    ensures InOrder(banned, Then(a, b).trace, from, to)
  {
    hide Due, InOrder;
    OrderJoins(banned, a.trace, b.trace, from, middle, next, to);
    OrderWidens(banned, a.trace, from, middle, to);
  }

  lemma FinalInOrder(banned: bool, j: Jail)
    ensures InOrder(banned, Final(j), 31, 32)
  {
    hide InOrder, When;
    PairInOrder(banned, AltSyscall in j.flags, SwitchSyscallTable(j.altSyscallTable), Seccomp in j.flags, StrictSeccomp);
  }

  /** Every entry of a hook-free jail, complete or cut short, has its effects in the order in which they are due. */
  lemma EnteredInOrder(w: World, j: Jail)
    requires j.hooks == []
    ensures InOrder(NoNewPrivs in j.flags, Entered(w, j).trace, 0, 32)
  {
    hide Due, InOrder, MountNs, Namespaces, Filesystem, Drop, Final, Then;
    var banned := NoNewPrivs in j.flags;
    MountNsInOrder(banned, j);
    NamespacesInOrder(banned, j);
    FilesystemInOrder(banned, j);
    DropInOrder(w, j);
    FinalInOrder(banned, j);
    AllDueAt(banned, [], 0);
    OrderJoins(banned, Namespaces(j), Filesystem(j), 4, 10, 11, 21);
    var middle := Run(Namespaces(j) + Filesystem(j), true);
    var late := Then(Drop(w, j), Run(Final(j), true));
    ThenInOrder(banned, Drop(w, j), Run(Final(j), true), 22, 30, 31, 32);
    ThenInOrder(banned, middle, late, 4, 21, 22, 32);
    ThenInOrder(banned, MountNs(j), Then(middle, late), 0, 3, 4, 32);
    ThenInOrder(banned, Guard(j), Then(MountNs(j), Then(middle, late)), 0, 0, 0, 32);
  }

  // ---------------------------------------------------------------- the order of a split entry

  /** No effect of the preloaded library would have come before one of the launching side: what the
      launcher keeps for last, /proc above all, is not asked for together with what the library does first. */
  predicate KeepsOrder(j: Jail) {
    && (Ipc in j.flags ==>
          Uts !in j.flags && !(Net in j.flags && EnterNet !in j.flags) && NsCgroups !in j.flags && RemountProcRo !in j.flags)
    && (EnterNet in j.flags ==> NsCgroups !in j.flags && RemountProcRo !in j.flags)
    && (RemountProcRo in j.flags ==>
          NewSessionKeyring !in j.flags && MountDev !in j.flags && j.mounts == []
          && Chroot !in j.flags && PivotRoot !in j.flags && MountTmp !in j.flags)
  }

  lemma EarlyIsFirst(banned: bool, j: Jail, e: Effect, e': Effect)
    requires KeepsOrder(j) && Asked(j, e) && Asked(j, e') && Due(banned, e) <= Due(banned, e') && Early(e')
    ensures Early(e)
  {
  }

  lemma {:induction false} PhasesInSequence(t: seq<Effect>)
    requires forall i, k :: 0 <= i < k < |t| && Early(t[k]) ==> Early(t[i])
    ensures Phase(true, t) + Phase(false, t) == t
  {
    hide Early;
    if t != [] {
      var rest := t[1..];
      assert forall i :: 0 <= i < |rest| ==> rest[i] == t[i + 1];
      PhasesInSequence(rest);
      assert t == [t[0]] + rest;
      if !Early(t[0]) {
        forall e | e in rest
          ensures !Early(e)
        {
          var k :| 0 <= k < |rest| && rest[k] == e;
          assert e == t[k + 1];
        }
        PhaseWhole(false, rest);
      }
    }
  }

  lemma OrderedPhases(w: World, s: Jail)
    requires KeepsOrder(s) && s.hooks == [] && Entered(w, s).alive
    ensures Phase(true, Trace(w, s)) + Phase(false, Trace(w, s)) == Trace(w, s)
  {
    hide Trace, Entered, KeepsOrder, Due, Asked, Early, Phase;
    var t, banned := Trace(w, s), NoNewPrivs in s.flags;
    EnteredTrace(w, s);
    EnteredInOrder(w, s);
    HonestTrace(w, s);
    forall i, k | 0 <= i < k < |t| && Early(t[k])
      ensures Early(t[i])
    {
      assert t[i] in t && t[k] in t;
      EarlyIsFirst(banned, s, t[i], t[k]);
    }
    PhasesInSequence(t);
  }

  /** The latest effect that the launching side is sure to perform. */
  lemma LateInFirst(w: World, s: Jail, f: Jail, n: Jail) returns (e: Effect)
    requires Parted(s, f, n) && SplitsCleanly(s)
    requires RemountProcRo in s.flags || NsCgroups in s.flags || (Net in s.flags && EnterNet !in s.flags) || Uts in s.flags
    ensures e in Trace(w, f)
    ensures forall banned :: Due(banned, e) >= if RemountProcRo in s.flags then 18 else if NsCgroups in s.flags then 9 else 5
  {
    hide Parted, Trace, Mounts, Roots, Tmp, Bounds, SplitsCleanly;
    EarlyFlag(s, f, n, RemountProcRo);
    EarlyFlag(s, f, n, NsCgroups);
    EarlyFlag(s, f, n, Net);
    EarlyFlag(s, f, n, Uts);
    LateFlag(s, f, n, EnterNet);
    if RemountProcRo in s.flags {
      e := MountProcReadOnly(RootOf(f));
      ProcInTrace(w, f);
    } else if NsCgroups in s.flags {
      e := UnshareCgroups;
      assert e in CgroupNs(f);
      InTrace(w, f, e);
    } else if Net in s.flags && EnterNet !in s.flags {
      e := UnshareNet;
      assert e in NetNs(f);
      InTrace(w, f, e);
    } else {
      e := UnshareUts;
      assert e in UtsNs(f);
      InTrace(w, f, e);
    }
  }

  lemma MountInTrace(w: World, j: Jail)
    requires j.mounts != []
    ensures MountEffect(j, j.mounts[0]) in Trace(w, j)
  {
    hide Roots, Tmp, Proc, Bounds, Trace;
    assert MountEffect(j, j.mounts[0]) in MountAll(j, j.mounts);
    InTrace(w, j, MountEffect(j, j.mounts[0]));
  }

  lemma NamespaceInTrace(w: World, j: Jail)
    ensures Ipc in j.flags ==> UnshareIpc in Trace(w, j)
    ensures EnterNet in j.flags ==> JoinNet(j.settings.netnsFd) in Trace(w, j)
    ensures NewSessionKeyring in j.flags ==> JoinKeyring in Trace(w, j)
  {
    hide Trace, Filesystem, UtsNs, CgroupNs;
    if Ipc in j.flags {
      assert UnshareIpc in IpcNs(j);
      InTrace(w, j, UnshareIpc);
    }
    if EnterNet in j.flags {
      assert JoinNet(j.settings.netnsFd) in NetNs(j);
      InTrace(w, j, JoinNet(j.settings.netnsFd));
    }
    if NewSessionKeyring in j.flags {
      InTrace(w, j, JoinKeyring);
    }
  }

  lemma FilesystemInTrace(w: World, j: Jail)
    ensures MountDev in j.flags ==> PrepareDev in Trace(w, j)
    ensures MountTmp in j.flags ==> MountTmpfs(RootOf(j), j.settings.tmpfsSize) in Trace(w, j)
  {
    hide Trace, Namespaces, Roots, Proc, Bounds, MountAll;
    if MountDev in j.flags {
      assert PrepareDev in Mounts(j);
      InTrace(w, j, PrepareDev);
    }
    if MountTmp in j.flags {
      assert MountTmpfs(RootOf(j), j.settings.tmpfsSize) in Tmp(j);
      InTrace(w, j, MountTmpfs(RootOf(j), j.settings.tmpfsSize));
    }
  }

  /** An effect of the preloaded library that comes before the remount of /proc. */
  lemma EarlyInSecond(w: World, s: Jail, f: Jail, n: Jail) returns (e: Effect)
    requires Parted(s, f, n)
    requires Ipc in s.flags || EnterNet in s.flags || NewSessionKeyring in s.flags || MountDev in s.flags
             || s.mounts != [] || MountTmp in s.flags
    ensures e in Trace(w, n)
    ensures forall banned :: Due(banned, e) <= if Ipc in s.flags then 4 else if EnterNet in s.flags then 7 else 16
  {
    hide Parted, Trace;
    PartedFields(s, f, n);
    LateFlag(s, f, n, Ipc);
    LateFlag(s, f, n, EnterNet);
    LateFlag(s, f, n, NewSessionKeyring);
    LateFlag(s, f, n, MountDev);
    LateFlag(s, f, n, MountTmp);
    NamespaceInTrace(w, n);
    FilesystemInTrace(w, n);
    if Ipc in s.flags {
      e := UnshareIpc;
    } else if EnterNet in s.flags {
      e := JoinNet(n.settings.netnsFd);
    } else if NewSessionKeyring in s.flags {
      e := JoinKeyring;
    } else if MountDev in s.flags {
      e := PrepareDev;
    } else if s.mounts != [] {
      e := MountEffect(n, n.mounts[0]);
      MountInTrace(w, n);
    } else {
      e := MountTmpfs(RootOf(n), n.settings.tmpfsSize);
    }
  }

  lemma Disordered(w: World, s: Jail, f: Jail, n: Jail)
    requires Parted(s, f, n) && SplitsCleanly(s) && !KeepsOrder(s)
    ensures !InOrder(NoNewPrivs in s.flags, Trace(w, f) + Trace(w, n), 0, 32)
  {
    hide Parted, Trace, Due;
    NotInNamespace(s, f, n);
    var banned := NoNewPrivs in s.flags;
    var e' := LateInFirst(w, s, f, n);
    var e := EarlyInSecond(w, s, f, n);
    var first, all := Trace(w, f), Trace(w, f) + Trace(w, n);
    var i :| 0 <= i < |first| && first[i] == e';
    var k :| 0 <= k < |Trace(w, n)| && Trace(w, n)[k] == e;
    assert all[i] == e' && all[|first| + k] == e;
    assert Due(banned, e) < Due(banned, e');
  }

  /** The two halves, one after the other, are the single entry itself exactly when the jail splits cleanly and keeps
      the order; and a jail that splits cleanly has its effects in the order in which they are due exactly then. */
  lemma SplitOrder(w: World, k: Kernel, j: Jail, initpid: S32)
    requires Coherent(k, j) && j.hooks == [] && Single(w, j).alive
    ensures var both := First(w, j).trace + Second(w, j, initpid).trace;
            && (both == Single(w, j).trace <==> SplitsCleanly(j) && KeepsOrder(InChild(j)))
            && (SplitsCleanly(j) ==> (InOrder(NoNewPrivs in j.flags, both, 0, 32) <==> KeepsOrder(InChild(j))))
  {
    hide Parted, Coherent, Entered, Trace, SplitsCleanly, Phase, BeforeEnter, BeforeExec, Restored, InChild, KeepsOrder, InOrder;
    WholeIs(k, j, initpid);
    var s, f := Whole(j), BeforeExec(InChild(j));
    var n := BeforeEnter(Restored(j.(settings := j.settings.(initpid := initpid))));
    SplitEnter(w, k, j, initpid);
    AliveTogether(w, k, s, f, n);
    EnteredTrace(w, s);
    EnteredTrace(w, f);
    EnteredTrace(w, n);
    assert s.hooks == [] by { NoHooks(j); }
    SameOrder(j);
    if SplitsCleanly(j) {
      EnteredInOrder(w, s);
      if KeepsOrder(s) {
        OrderedPhases(w, s);
      } else {
        Disordered(w, s, f, n);
      }
    }
  }

  lemma NoHooks(j: Jail)
    requires j.hooks == []
    ensures Whole(j).hooks == []
  {
  }

  lemma SameOrder(j: Jail)
    ensures KeepsOrder(Whole(j)) <==> KeepsOrder(InChild(j))
  {
  }
}
