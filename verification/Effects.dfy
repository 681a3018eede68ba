/** What an entry does, counted: for every effect there is, how often a process that survives
    `minijail_enter` has done it, said from the flags, fields and lists of the jail alone; and
    which jails survive. */
module Effects {
  import opened Bits
  import opened Machine
  import opened Jail
  import opened Enter

  function Once(c: bool): nat { if c then 1 else 0 }

  /** How often an effect happens, whatever its arguments. */
  function Times(w: World, j: Jail, e: Effect): nat {
    var f, s := j.flags, j.settings;
    var root := if Chroot in f || PivotRoot in f then Inner(j.chrootdir) else Outer;
    var filtered := SeccompFilter in f && !w.asan;
    var logging := w.logByDefault || SeccompFilterLogging in f;
    match e
    case JoinMountNs(fd) => Once(EnterVfs in f && fd == s.mountnsFd)
    case UnshareMounts => Once(Vfs in f)
    case RemountRoot(mode) => Once(Vfs in f && j.remountMode != 0 && mode == j.remountMode)
    case RemountAt(name, mode) =>
      if Vfs in f && j.remountMode != 0 then multiset(j.remounts)[Remount(mode, name)] else 0
    case UnshareIpc => Once(Ipc in f)
    case UnshareUts => Once(Uts in f)
    case NameHost(name) => Once(Uts in f && j.hostname == Some(name))
    case JoinNet(fd) => Once(EnterNet in f && fd == s.netnsFd)
    case UnshareNet => Once(Net in f && EnterNet !in f)
    case ConfigureLoopback => Once(Net in f && EnterNet !in f)
    case UnshareCgroups => Once(NsCgroups in f)
    case JoinKeyring => Once(NewSessionKeyring in f)
    case PrepareDev => Once(MountDev in f)
    case MountOn(dir, underDev, uid, gid, m) =>
      if dir == j.chrootdir && uid == s.uid && gid == s.gid
         && underDev == (MountDev in f && |m.dest| >= 5 && m.dest[..5] == [47, 100, 101, 118, 47])
      then multiset(j.mounts)[m] else 0
    case MoveDev(dir) => Once(MountDev in f && dir == j.chrootdir)
    case RunHook(id) =>
      (Once(Chroot in f) + Once(PivotRoot in f)) * multiset(j.hooks)[Hook(id, PreChroot)]
      + multiset(j.hooks)[Hook(id, PreDropCaps)]
    case ChangeRoot(dir) => Once(Chroot in f && dir == j.chrootdir)
    case PivotTo(dir) => Once(PivotRoot in f && dir == j.chrootdir)
    case MountTmpfs(within, size) => Once(MountTmp in f && within == root && size == s.tmpfsSize)
    case DetachProc(within) => Once(RemountProcRo in f && Userns !in f && within == root)
    case MountProcReadOnly(within) => Once(RemountProcRo in f && within == root)
    case BoundCaps(keep) => Once(CapbsetDrop in f && keep == s.capBset)
    case LockSecurebits(skip, keepCaps) =>
      Once(UseCaps in f && skip == s.securebitsSkipMask && keepCaps == (SetAmbientCaps !in f))
    case InitGroups(user, group) => Once(InheritSupplGids in f && user == j.user && group == s.usergid)
    case SetGroups(count, list) => Once(SetSupplGids in f && count == j.supplGidCount && list == j.supplGids)
    case ClearGroups =>
      Once((Uid in f || Gid in f)
           && InheritSupplGids !in f && SetSupplGids !in f && KeepSupplGids !in f && DisableSetgroups !in f)
    case BecomeGroup(group) => Once(Gid in f && group == s.gid)
    case BecomeUser(owner) => Once(Uid in f && owner == s.uid)
    case LimitCaps(caps, skip, ambient) =>
      Once(UseCaps in f && caps == s.caps && skip == s.securebitsSkipMask && ambient == (SetAmbientCaps in f))
    case ForbidNewPrivs => Once(NoNewPrivs in f)
    case AddRule(fd, rule) =>
      if EnableFsRestrictions in f && w.landlock && fd == j.fsRulesFd then multiset(j.fsRules)[rule] else 0
    case RestrictSelf(fd) => Once(EnableFsRestrictions in f && j.fsRules != [] && fd == j.fsRulesFd && fd >= 0)
    case CatchSigsys => Once(filtered && logging && !w.retLog)
    case ResetSigsys => Once(filtered && !logging && SeccompFilterTsync in f)
    case InstallFilter(tsync, speculation, prog) =>
      Once(filtered && tsync == (SeccompFilterTsync in f) && speculation == (SeccompFilterAllowSpeculation in f)
           && j.filterProg == Some(prog))
    case SwitchSyscallTable(table) => Once(AltSyscall in f && table == j.altSyscallTable)
    case StrictSeccomp => Once(Seccomp in f)
  }

  /** The part of an entry that an effect belongs to. */
  datatype Place =
    | AtMountNs | AtIpc | AtUts | AtNet | AtCgroup | AtKeyring | AtMounts | AtRoots | AtTmp | AtProc | AtBounds
    | AtUgid | AtCaps | AtBan | AtLandlock | AtFilter | AtFinal

  function Home(e: Effect): Place {
    match e
    case JoinMountNs(_) => AtMountNs
    case UnshareMounts => AtMountNs
    case RemountRoot(_) => AtMountNs
    case RemountAt(_, _) => AtMountNs
    case UnshareIpc => AtIpc
    case UnshareUts => AtUts
    case NameHost(_) => AtUts
    case JoinNet(_) => AtNet
    case UnshareNet => AtNet
    case ConfigureLoopback => AtNet
    case UnshareCgroups => AtCgroup
    case JoinKeyring => AtKeyring
    case PrepareDev => AtMounts
    case MountOn(_, _, _, _, _) => AtMounts
    case MoveDev(_) => AtMounts
    case RunHook(_) => AtBounds
    case ChangeRoot(_) => AtRoots
    case PivotTo(_) => AtRoots
    case MountTmpfs(_, _) => AtTmp
    case DetachProc(_) => AtProc
    case MountProcReadOnly(_) => AtProc
    case BoundCaps(_) => AtBounds
    case LockSecurebits(_, _) => AtBounds
    case InitGroups(_, _) => AtUgid
    case SetGroups(_, _) => AtUgid
    case ClearGroups => AtUgid
    case BecomeGroup(_) => AtUgid
    case BecomeUser(_) => AtUgid
    case LimitCaps(_, _, _) => AtCaps
    case ForbidNewPrivs => AtBan
    case AddRule(_, _) => AtLandlock
    case RestrictSelf(_) => AtLandlock
    case CatchSigsys => AtFilter
    case ResetSigsys => AtFilter
    case InstallFilter(_, _, _) => AtFilter
    case SwitchSyscallTable(_) => AtFinal
    case StrictSeccomp => AtFinal
  }

  /** Hooks run in two parts. */
  predicate Belongs(e: Effect, p: Place) { p == Home(e) || (e.RunHook? && p.AtRoots?) }

  ghost function Often(t: seq<Effect>, e: Effect): nat { multiset(t)[e] }

  lemma OftenSum(s: seq<Effect>, t: seq<Effect>, e: Effect)
    ensures Often(s + t, e) == Often(s, e) + Often(t, e)
  {
  }

  lemma OftenWhen(c: bool, x: Effect, e: Effect)
    ensures Often(When(c, x), e) == Once(c && e == x)
    ensures Often([], e) == 0
  {
  }

  lemma OftenNever(t: seq<Effect>, e: Effect)
    requires e !in t
    ensures Often(t, e) == 0
  {
  }

  // ---------------------------------------------------------------- lists

  lemma FirstCounts<T>(s: seq<T>, x: T)
    requires s != []
    ensures multiset(s)[x] == Once(s[0] == x) + multiset(s[1..])[x]
  {
    assert s == [s[0]] + s[1..];
  }

  lemma {:induction false} OftenRemounts(rs: seq<Remount>, mode: U64, e: Effect)
    requires Remounts(rs, mode).alive
    ensures Often(Remounts(rs, mode).trace, e) ==
            if e.RemountAt? then multiset(rs)[Remount(e.mode, e.name)] else 0
  {
    hide Often;
    var first := if rs == [] then UnshareMounts else RemountAt(rs[0].name, rs[0].mode);
    OftenWhen(true, first, e);
    if rs != [] {
      OftenRemounts(rs[1..], mode, e);
      OftenSum([first], Remounts(rs[1..], mode).trace, e);
      if e.RemountAt? {
        FirstCounts(rs, Remount(e.mode, e.name));
      }
    }
  }

  lemma {:induction false} OftenHooks(hs: seq<Hook>, event: HookEvent, e: Effect)
    ensures Often(Hooks(hs, event), e) == if e.RunHook? then multiset(hs)[Hook(e.id, event)] else 0
  {
    hide Often, When;
    OftenWhen(false, UnshareMounts, e);
    if hs != [] {
      OftenHooks(hs[1..], event, e);
      OftenWhen(hs[0].event == event, RunHook(hs[0].id), e);
      OftenSum(When(hs[0].event == event, RunHook(hs[0].id)), Hooks(hs[1..], event), e);
      if e.RunHook? {
        FirstCounts(hs, Hook(e.id, event));
      }
    }
  }

  lemma {:induction false} OftenMounts(j: Jail, ms: seq<Mount>, e: Effect)
    ensures Often(MountAll(j, ms), e) == if e.MountOn? && e == MountEffect(j, e.mount) then multiset(ms)[e.mount] else 0
  {
    hide Often;
    OftenWhen(false, UnshareMounts, e);
    if ms != [] {
      OftenMounts(j, ms[1..], e);
      OftenWhen(true, MountEffect(j, ms[0]), e);
      OftenSum([MountEffect(j, ms[0])], MountAll(j, ms[1..]), e);
      if e.MountOn? {
        FirstCounts(ms, e.mount);
      }
    }
  }

  lemma {:induction false} OftenRules(fd: S32, rs: seq<FsRule>, e: Effect)
    ensures Often(Rules(fd, rs), e) == if e.AddRule? && e.fd == fd then multiset(rs)[e.rule] else 0
  {
    hide Often;
    OftenWhen(false, UnshareMounts, e);
    if rs != [] {
      OftenRules(fd, rs[1..], e);
      OftenWhen(true, AddRule(fd, rs[0]), e);
      OftenSum([AddRule(fd, rs[0])], Rules(fd, rs[1..]), e);
      if e.AddRule? {
        FirstCounts(rs, e.rule);
      }
    }
  }

  // ---------------------------------------------------------------- part by part

  /** The share of an effect's count that falls to a part: all of it, except that hooks run in two parts. */
  function Share(w: World, j: Jail, e: Effect, p: Place): nat {
    if !Belongs(e, p) then 0
    else if e.RunHook? then
      if p.AtBounds? then multiset(j.hooks)[Hook(e.id, PreDropCaps)]
      else (Once(Chroot in j.flags) + Once(PivotRoot in j.flags)) * multiset(j.hooks)[Hook(e.id, PreChroot)]
    else Times(w, j, e)
  }

  lemma CountMountNs(w: World, j: Jail, e: Effect)
    requires MountNs(j).alive
    ensures Often(MountNs(j).trace, e) == Share(w, j, e, AtMountNs)
  {
    hide Often, Remounts;
    var joined := When(EnterVfs in j.flags, JoinMountNs(j.settings.mountnsFd));
    OftenWhen(EnterVfs in j.flags, JoinMountNs(j.settings.mountnsFd), e);
    OftenWhen(true, UnshareMounts, e);
    OftenWhen(true, RemountRoot(j.remountMode), e);
    OftenSum(joined, [UnshareMounts], e);
    if Vfs in j.flags && j.remountMode != 0 {
      OftenRemounts(j.remounts, j.remountMode, e);
      assert [UnshareMounts, RemountRoot(j.remountMode)] == [UnshareMounts] + [RemountRoot(j.remountMode)];
      OftenSum([UnshareMounts], [RemountRoot(j.remountMode)], e);
      OftenSum(joined, [UnshareMounts, RemountRoot(j.remountMode)], e);
      OftenSum(joined + [UnshareMounts, RemountRoot(j.remountMode)], Remounts(j.remounts, j.remountMode).trace, e);
    }
  }

  lemma CountIpc(w: World, j: Jail, e: Effect)
    ensures Often(IpcNs(j), e) == Share(w, j, e, AtIpc)
  {
    hide Often, When;
    OftenWhen(Ipc in j.flags, UnshareIpc, e);
  }

  lemma CountCgroup(w: World, j: Jail, e: Effect)
    ensures Often(CgroupNs(j), e) == Share(w, j, e, AtCgroup)
  {
    hide Often, When;
    OftenWhen(NsCgroups in j.flags, UnshareCgroups, e);
  }

  lemma CountKeyring(w: World, j: Jail, e: Effect)
    ensures Often(When(NewSessionKeyring in j.flags, JoinKeyring), e) == Share(w, j, e, AtKeyring)
  {
    hide Often, When;
    OftenWhen(NewSessionKeyring in j.flags, JoinKeyring, e);
  }

  lemma CountUts(w: World, j: Jail, e: Effect)
    ensures Often(UtsNs(j), e) == Share(w, j, e, AtUts)
  {
    hide Often;
    var name := if j.hostname.Some? then [NameHost(j.hostname.value)] else [];
    OftenWhen(true, UnshareUts, e);
    if j.hostname.Some? {
      OftenWhen(true, NameHost(j.hostname.value), e);
    }
    OftenSum([UnshareUts], name, e);
  }

  lemma CountNet(w: World, j: Jail, e: Effect)
    ensures Often(NetNs(j), e) == Share(w, j, e, AtNet)
  {
    hide Often;
    OftenWhen(true, JoinNet(j.settings.netnsFd), e);
    OftenWhen(true, UnshareNet, e);
    OftenWhen(true, ConfigureLoopback, e);
    OftenSum([UnshareNet], [ConfigureLoopback], e);
    assert [UnshareNet, ConfigureLoopback] == [UnshareNet] + [ConfigureLoopback];
  }

  lemma CountMounts(w: World, j: Jail, e: Effect)
    ensures Often(Mounts(j), e) == Share(w, j, e, AtMounts)
  {
    hide Often, When, MountAll;
    var on := MountDev in j.flags;
    OftenWhen(on, PrepareDev, e);
    OftenWhen(on, MoveDev(j.chrootdir), e);
    OftenMounts(j, j.mounts, e);
    OftenSum(When(on, PrepareDev), MountAll(j, j.mounts), e);
    OftenSum(When(on, PrepareDev) + MountAll(j, j.mounts), When(on, MoveDev(j.chrootdir)), e);
  }

  lemma CountRoots(w: World, j: Jail, e: Effect)
    ensures Often(Roots(j), e) == Share(w, j, e, AtRoots)
  {
    hide Often, Hooks;
    var hooks := Hooks(j.hooks, PreChroot);
    OftenHooks(j.hooks, PreChroot, e);
    OftenWhen(true, ChangeRoot(j.chrootdir), e);
    OftenWhen(true, PivotTo(j.chrootdir), e);
    OftenSum(hooks, [ChangeRoot(j.chrootdir)], e);
    OftenSum(hooks, [PivotTo(j.chrootdir)], e);
    OftenSum(if Chroot in j.flags then hooks + [ChangeRoot(j.chrootdir)] else [],
             if PivotRoot in j.flags then hooks + [PivotTo(j.chrootdir)] else [], e);
  }

  lemma CountTmp(w: World, j: Jail, e: Effect)
    ensures Often(Tmp(j), e) == Share(w, j, e, AtTmp)
  {
    hide Often, When;
    OftenWhen(MountTmp in j.flags, MountTmpfs(RootOf(j), j.settings.tmpfsSize), e);
  }

  lemma CountProc(w: World, j: Jail, e: Effect)
    ensures Often(Proc(j), e) == Share(w, j, e, AtProc)
  {
    hide Often;
    OftenWhen(Userns !in j.flags, DetachProc(RootOf(j)), e);
    OftenWhen(true, MountProcReadOnly(RootOf(j)), e);
    OftenSum(When(Userns !in j.flags, DetachProc(RootOf(j))), [MountProcReadOnly(RootOf(j))], e);
  }

  lemma CountBounds(w: World, j: Jail, e: Effect)
    ensures Often(Bounds(j), e) == Share(w, j, e, AtBounds)
  {
    hide Often, Hooks, When;
    var hooks := Hooks(j.hooks, PreDropCaps);
    var bound := When(CapbsetDrop in j.flags, BoundCaps(j.settings.capBset));
    var lock := LockSecurebits(j.settings.securebitsSkipMask, SetAmbientCaps !in j.flags);
    OftenHooks(j.hooks, PreDropCaps, e);
    OftenWhen(CapbsetDrop in j.flags, BoundCaps(j.settings.capBset), e);
    OftenWhen(UseCaps in j.flags, lock, e);
    OftenSum(hooks, bound, e);
    OftenSum(hooks + bound, When(UseCaps in j.flags, lock), e);
  }

  lemma CountGroups(j: Jail, e: Effect)
    requires DropUgid(j).alive
    ensures Often(Groups(j), e) ==
            match e
            case InitGroups(user, group) => Once(InheritSupplGids in j.flags && user == j.user && group == j.settings.usergid)
            case SetGroups(count, list) => Once(SetSupplGids in j.flags && count == j.supplGidCount && list == j.supplGids)
            case ClearGroups =>
              Once((Uid in j.flags || Gid in j.flags) && InheritSupplGids !in j.flags && SetSupplGids !in j.flags
                   && KeepSupplGids !in j.flags && DisableSetgroups !in j.flags)
            case _ => 0
  {
    hide Often;
    OftenWhen(true, InitGroups(j.user, j.settings.usergid), e);
    OftenWhen(true, SetGroups(j.supplGidCount, j.supplGids), e);
    OftenWhen(KeepSupplGids !in j.flags && DisableSetgroups !in j.flags && (Uid in j.flags || Gid in j.flags), ClearGroups, e);
  }

  lemma CountUgid(w: World, j: Jail, e: Effect)
    requires DropUgid(j).alive
    ensures Often(DropUgid(j).trace, e) == Share(w, j, e, AtUgid)
  {
    hide Often, Groups, When;
    var group, user := BecomeGroup(j.settings.gid), BecomeUser(j.settings.uid);
    CountGroups(j, e);
    OftenWhen(Gid in j.flags, group, e);
    OftenWhen(Uid in j.flags, user, e);
    OftenSum(Groups(j), When(Gid in j.flags, group), e);
    OftenSum(Groups(j) + When(Gid in j.flags, group), When(Uid in j.flags, user), e);
  }

  lemma CountCaps(w: World, j: Jail, e: Effect)
    ensures Often(DropCaps(j), e) == Share(w, j, e, AtCaps)
    ensures Often(When(NoNewPrivs in j.flags, ForbidNewPrivs), e) == Share(w, j, e, AtBan)
  {
    hide Often, When;
    var limit := LimitCaps(j.settings.caps, j.settings.securebitsSkipMask, SetAmbientCaps in j.flags);
    OftenWhen(UseCaps in j.flags, limit, e);
    OftenWhen(NoNewPrivs in j.flags, ForbidNewPrivs, e);
  }

  lemma CountLandlock(w: World, j: Jail, e: Effect)
    ensures Often(Landlock(w, j), e) == Share(w, j, e, AtLandlock)
  {
    hide Often, Rules, When;
    OftenWhen(false, UnshareIpc, e);
    OftenRules(j.fsRulesFd, j.fsRules, e);
    OftenWhen(j.fsRulesFd >= 0, RestrictSelf(j.fsRulesFd), e);
    OftenSum(if w.landlock then Rules(j.fsRulesFd, j.fsRules) else [], When(j.fsRulesFd >= 0, RestrictSelf(j.fsRulesFd)), e);
  }

  lemma CountSigsys(w: World, j: Jail, e: Effect)
    ensures Often(SigsysSetup(w, j), e) ==
            if w.logByDefault || SeccompFilterLogging in j.flags then Once(!w.retLog && e.CatchSigsys?)
            else Once(SeccompFilterTsync in j.flags && e.ResetSigsys?)
  {
    hide Often, When;
    OftenWhen(!w.retLog, CatchSigsys, e);
    OftenWhen(SeccompFilterTsync in j.flags, ResetSigsys, e);
  }

  lemma CountFilter(w: World, j: Jail, e: Effect)
    requires Filter(w, j).alive
    ensures Often(Filter(w, j).trace, e) == Share(w, j, e, AtFilter)
  {
    hide Often, SigsysSetup;
    OftenWhen(false, UnshareMounts, e);
    if SeccompFilter in j.flags && !w.asan {
      var install :=
        InstallFilter(SeccompFilterTsync in j.flags, SeccompFilterAllowSpeculation in j.flags, j.filterProg.value);
      CountSigsys(w, j, e);
      OftenWhen(true, install, e);
      OftenSum(SigsysSetup(w, j), [install], e);
    }
  }

  lemma CountFinal(w: World, j: Jail, e: Effect)
    ensures Often(Final(j), e) == Share(w, j, e, AtFinal)
  {
    hide Often, When;
    OftenWhen(AltSyscall in j.flags, SwitchSyscallTable(j.altSyscallTable), e);
    OftenWhen(Seccomp in j.flags, StrictSeccomp, e);
    OftenSum(When(AltSyscall in j.flags, SwitchSyscallTable(j.altSyscallTable)), When(Seccomp in j.flags, StrictSeccomp), e);
  }

  // ---------------------------------------------------------------- the whole entry

  lemma CountNamespaces(w: World, j: Jail, e: Effect)
    ensures Often(Namespaces(j), e) ==
            Share(w, j, e, AtIpc) + Share(w, j, e, AtUts) + Share(w, j, e, AtNet) + Share(w, j, e, AtCgroup)
            + Share(w, j, e, AtKeyring)
  {
    hide Often, Share, IpcNs, UtsNs, NetNs, CgroupNs, When;
    CountIpc(w, j, e);
    CountCgroup(w, j, e);
    CountKeyring(w, j, e);
    CountUts(w, j, e);
    CountNet(w, j, e);
    var ipc, uts, net, cgroup := IpcNs(j), UtsNs(j), NetNs(j), CgroupNs(j);
    OftenSum(ipc, uts, e);
    OftenSum(ipc + uts, net, e);
    OftenSum(ipc + uts + net, cgroup, e);
    OftenSum(ipc + uts + net + cgroup, When(NewSessionKeyring in j.flags, JoinKeyring), e);
  }

  lemma CountFilesystem(w: World, j: Jail, e: Effect)
    ensures Often(Filesystem(j), e) ==
            Share(w, j, e, AtMounts) + Share(w, j, e, AtRoots) + Share(w, j, e, AtTmp) + Share(w, j, e, AtProc)
            + Share(w, j, e, AtBounds)
  {
    hide Often, Share, Mounts, Roots, Tmp, Proc, Bounds;
    CountMounts(w, j, e);
    CountRoots(w, j, e);
    CountTmp(w, j, e);
    CountProc(w, j, e);
    CountBounds(w, j, e);
    OftenSum(Mounts(j), Roots(j), e);
    OftenSum(Mounts(j) + Roots(j), Tmp(j), e);
    OftenSum(Mounts(j) + Roots(j) + Tmp(j), Proc(j), e);
    OftenSum(Mounts(j) + Roots(j) + Tmp(j) + Proc(j), Bounds(j), e);
  }

  /** Privileges are given up in one of two orders, with the same effects. */
  lemma CountDrop(w: World, j: Jail, e: Effect)
    requires Enter.Drop(w, j).alive
    ensures Often(Enter.Drop(w, j).trace, e) ==
            Share(w, j, e, AtUgid) + Share(w, j, e, AtCaps) + Share(w, j, e, AtBan) + Share(w, j, e, AtLandlock)
            + Share(w, j, e, AtFilter)
  {
    hide Often, Share, DropUgid, DropCaps, Landlock, Filter;
    CountUgid(w, j, e);
    CountCaps(w, j, e);
    CountLandlock(w, j, e);
    CountFilter(w, j, e);
    var ugid, caps, rules, filter := DropUgid(j).trace, DropCaps(j), Landlock(w, j), Filter(w, j).trace;
    if NoNewPrivs in j.flags {
      OftenSum(caps, [ForbidNewPrivs], e);
      OftenSum(caps + [ForbidNewPrivs], rules, e);
      OftenSum(caps + [ForbidNewPrivs] + rules, filter, e);
      OftenSum(ugid, caps + [ForbidNewPrivs] + rules + filter, e);
    } else {
      OftenWhen(false, ForbidNewPrivs, e);
      OftenSum(ugid, caps, e);
      OftenSum(filter, ugid + caps, e);
      OftenSum(rules, filter + (ugid + caps), e);
    }
  }

  lemma SharesSum(w: World, j: Jail, e: Effect)
    ensures Share(w, j, e, AtMountNs)
            + (Share(w, j, e, AtIpc) + Share(w, j, e, AtUts) + Share(w, j, e, AtNet) + Share(w, j, e, AtCgroup)
               + Share(w, j, e, AtKeyring))
            + (Share(w, j, e, AtMounts) + Share(w, j, e, AtRoots) + Share(w, j, e, AtTmp) + Share(w, j, e, AtProc)
               + Share(w, j, e, AtBounds))
            + (Share(w, j, e, AtUgid) + Share(w, j, e, AtCaps) + Share(w, j, e, AtBan) + Share(w, j, e, AtLandlock)
               + Share(w, j, e, AtFilter))
            + Share(w, j, e, AtFinal) == Times(w, j, e)
  {
    hide Times, Home;
    if e.RunHook? {
      HookShares(w, j, e);
    }
  }

  lemma HookShares(w: World, j: Jail, e: Effect)
    requires e.RunHook?
    ensures Home(e) == AtBounds
    ensures Share(w, j, e, AtRoots) + Share(w, j, e, AtBounds) == Times(w, j, e)
  {
  }

  /** An entry that survives does every effect exactly as often as the jail asks for it, and nothing else. */
  lemma Occurrences(w: World, j: Jail, e: Effect)
    requires Entered(w, j).alive
    ensures multiset(Entered(w, j).trace)[e] == Times(w, j, e)
  {
    hide Entered, Times, Share, MountNs, Namespaces, Filesystem, Enter.Drop, Final, Guard;
    EnteredTrace(w, j);
    CountMountNs(w, j, e);
    CountNamespaces(w, j, e);
    CountFilesystem(w, j, e);
    CountDrop(w, j, e);
    CountFinal(w, j, e);
    SharesSum(w, j, e);
    var spaces, files, drop, end := Namespaces(j), Filesystem(j), Enter.Drop(w, j).trace, Final(j);
    OftenSum(spaces, files, e);
    OftenSum(drop, end, e);
    OftenSum(spaces + files, drop + end, e);
    OftenSum(MountNs(j).trace, (spaces + files) + (drop + end), e);
  }

  /** Two jails that ask for the same effects as often do the same, up to the order. */
  lemma SameEffects(w: World, j: Jail, w': World, j': Jail)
    requires Entered(w, j).alive && Entered(w', j').alive
    ensures multiset(Entered(w, j).trace) == multiset(Entered(w', j').trace) <==>
            forall e :: Times(w, j, e) == Times(w', j', e)
  {
    hide Times, Entered;
    forall e
      ensures multiset(Entered(w, j).trace)[e] == Times(w, j, e) && multiset(Entered(w', j').trace)[e] == Times(w', j', e)
    {
      Occurrences(w, j, e);
      Occurrences(w', j', e);
    }
  }

  // ---------------------------------------------------------------- which entries survive

  lemma {:induction false} RemountsSurvive(rs: seq<Remount>, mode: U64)
    ensures Remounts(rs, mode).alive <==> forall i :: 0 <= i < |rs| ==> rs[i].mode >= mode
  {
    if rs != [] {
      var rest := rs[1..];
      RemountsSurvive(rest, mode);
      assert forall i :: 0 <= i < |rest| ==> rest[i] == rs[i + 1];
      if Remounts(rs, mode).alive {
        forall i | 0 <= i < |rs|
          ensures rs[i].mode >= mode
        {
          if i > 0 {
            assert rest[i - 1] == rs[i];
          }
        }
      }
    }
  }

  lemma DropSurvives(w: World, j: Jail)
    ensures Enter.Drop(w, j).alive <==> DropUgid(j).alive && Filter(w, j).alive
  {
    hide DropUgid, Filter, DropCaps, Landlock;
  }

  /** The process lives on exactly when there is no process namespace to enter, inherited groups have a user, no remount
      of a new mount namespace is stricter than the root, at most one thing is asked for the groups, and a filter that
      is to be installed is there. */
  lemma SurvivesIff(w: World, j: Jail)
    ensures Entered(w, j).alive <==>
            && Pids !in j.flags
            && (InheritSupplGids in j.flags ==> j.user.Some?)
            && (Vfs in j.flags && j.remountMode != 0 ==>
                  forall i :: 0 <= i < |j.remounts| ==> j.remounts[i].mode >= j.remountMode)
            && !(InheritSupplGids in j.flags && KeepSupplGids in j.flags)
            && !(InheritSupplGids in j.flags && SetSupplGids in j.flags)
            && !(KeepSupplGids in j.flags && SetSupplGids in j.flags)
            && (SeccompFilter in j.flags && !w.asan ==> j.filterProg.Some? && |j.filterProg.value| > 0)
  {
    hide Entered, Remounts, Enter.Drop;
    EnteredTrace(w, j);
    RemountsSurvive(j.remounts, j.remountMode);
    DropSurvives(w, j);
  }

  // ---------------------------------------------------------------- lists keep their order

  /** `b` stands in `t` at position `n`, without a gap. */
  ghost predicate StandsAt(b: seq<Effect>, t: seq<Effect>, n: nat) {
    n + |b| <= |t| && forall i :: 0 <= i < |b| ==> t[n + i] == b[i]
  }

  ghost predicate Within(b: seq<Effect>, t: seq<Effect>) { exists n: nat :: StandsAt(b, t, n) }

  lemma WithinSum(b: seq<Effect>, s: seq<Effect>, t: seq<Effect>, u: seq<Effect>)
    requires Within(b, t)
    ensures Within(b, s + t + u)
  {
    var n: nat :| StandsAt(b, t, n);
    assert StandsAt(b, s + t + u, |s| + n);
  }

  lemma WithinPart(b: seq<Effect>, s: seq<Effect>, u: seq<Effect>)
    ensures Within(b, s + b + u)
  {
    assert StandsAt(b, s + b + u, |s|);
  }

  lemma WithinEntry(w: World, j: Jail, b: seq<Effect>)
    requires Entered(w, j).alive
    requires Within(b, MountNs(j).trace) || Within(b, Filesystem(j)) || Within(b, Enter.Drop(w, j).trace)
    ensures Within(b, Entered(w, j).trace)
  {
    hide Within, Entered, MountNs, Namespaces, Filesystem, Enter.Drop, Final, Guard;
    EnteredTrace(w, j);
    var ns, spaces, files, drop, end := MountNs(j).trace, Namespaces(j), Filesystem(j), Enter.Drop(w, j).trace, Final(j);
    if Within(b, ns) {
      WithinSum(b, [], ns, (spaces + files) + (drop + end));
      assert [] + ns + ((spaces + files) + (drop + end)) == ns + ((spaces + files) + (drop + end));
    } else if Within(b, files) {
      WithinSum(b, ns + spaces, files, drop + end);
      assert ns + spaces + files + (drop + end) == ns + ((spaces + files) + (drop + end));
    } else {
      WithinSum(b, ns + (spaces + files), drop, end);
      assert ns + (spaces + files) + drop + end == ns + ((spaces + files) + (drop + end));
    }
  }

  // Mounts

  lemma {:induction false} MountAllAt(j: Jail, ms: seq<Mount>)
    ensures |MountAll(j, ms)| == |ms| && forall i :: 0 <= i < |ms| ==> MountAll(j, ms)[i] == MountEffect(j, ms[i])
  {
    hide MountEffect;
    if ms != [] {
      MountAllAt(j, ms[1..]);
    }
  }

  lemma {:induction false} MountsWithin(w: World, j: Jail)
    requires Entered(w, j).alive
    ensures Within(MountAll(j, j.mounts), Entered(w, j).trace)
  {
    hide Within, Entered, Roots, Tmp, Proc, Bounds, MountAll, When;
    var b, on, rest := MountAll(j, j.mounts), MountDev in j.flags, Roots(j) + Tmp(j) + Proc(j) + Bounds(j);
    var prepare, move := When(on, PrepareDev), When(on, MoveDev(j.chrootdir));
    WithinPart(b, prepare, move + rest);
    assert prepare + b + (move + rest) == Filesystem(j);
    WithinEntry(w, j, b);
  }

  /** The mounts of a jail are made one after the other, in their order, and nothing happens in between. */
  lemma MountsInSequence(w: World, j: Jail) returns (at: nat)
    requires Entered(w, j).alive
    ensures var t := Entered(w, j).trace;
            && at + |j.mounts| <= |t|
            && forall i :: 0 <= i < |j.mounts| ==>
                 var m := j.mounts[i];
                 t[at + i] == MountOn(j.chrootdir,
                                      MountDev in j.flags && |m.dest| >= 5 && m.dest[..5] == [47, 100, 101, 118, 47],
                                      j.settings.uid, j.settings.gid, m)
  {
    hide Entered, MountAll;
    MountsWithin(w, j);
    MountAllAt(j, j.mounts);
    at :| StandsAt(MountAll(j, j.mounts), Entered(w, j).trace, at);
  }

  // Rules

  lemma {:induction false} RulesAt(fd: S32, rs: seq<FsRule>)
    ensures |Rules(fd, rs)| == |rs| && forall i :: 0 <= i < |rs| ==> Rules(fd, rs)[i] == AddRule(fd, rs[i])
  {
    if rs != [] {
      RulesAt(fd, rs[1..]);
    }
  }

  lemma DropTrace(w: World, j: Jail)
    requires Enter.Drop(w, j).alive
    ensures var ugid, caps, rules, filter := DropUgid(j).trace, DropCaps(j), Landlock(w, j), Filter(w, j).trace;
            Enter.Drop(w, j).trace ==
              if NoNewPrivs in j.flags then ugid + ((caps + [ForbidNewPrivs] + rules) + filter)
              else rules + (filter + (ugid + caps))
  {
    hide DropUgid, DropCaps, Landlock, Filter;
  }

  lemma RulesWithin(w: World, j: Jail)
    requires Entered(w, j).alive
    ensures Within(Landlock(w, j), Entered(w, j).trace)
  {
    hide Within, Entered, Landlock, DropUgid, DropCaps, Filter, MountNs, Guard, Enter.Drop;
    EnteredTrace(w, j);
    DropTrace(w, j);
    var b, ugid, caps, filter := Landlock(w, j), DropUgid(j).trace, DropCaps(j), Filter(w, j).trace;
    if NoNewPrivs in j.flags {
      WithinPart(b, ugid + (caps + [ForbidNewPrivs]), filter);
      assert ugid + (caps + [ForbidNewPrivs]) + b + filter == ugid + ((caps + [ForbidNewPrivs] + b) + filter);
    } else {
      WithinPart(b, [], filter + (ugid + caps));
      assert [] + b + (filter + (ugid + caps)) == b + (filter + (ugid + caps));
    }
    WithinEntry(w, j, b);
  }

  /** Rules are added in their order, and the process restricts itself right after the last one. */
  lemma RulesInSequence(w: World, j: Jail) returns (at: nat)
    requires Entered(w, j).alive
    requires EnableFsRestrictions in j.flags && w.landlock && j.fsRules != [] && j.fsRulesFd >= 0
    ensures var t := Entered(w, j).trace;
            && at + |j.fsRules| < |t|
            && (forall i :: 0 <= i < |j.fsRules| ==> t[at + i] == AddRule(j.fsRulesFd, j.fsRules[i]))
            && t[at + |j.fsRules|] == RestrictSelf(j.fsRulesFd)
  {
    hide Entered, Landlock;
    RulesWithin(w, j);
    LandlockAt(w, j);
    var t, b := Entered(w, j).trace, Landlock(w, j);
    at :| StandsAt(b, t, at);
    assert t[at + |j.fsRules|] == b[|j.fsRules|];
  }

  lemma LandlockAt(w: World, j: Jail)
    requires EnableFsRestrictions in j.flags && w.landlock && j.fsRules != [] && j.fsRulesFd >= 0
    ensures var b := Landlock(w, j);
            && |b| == |j.fsRules| + 1 && b[|j.fsRules|] == RestrictSelf(j.fsRulesFd)
            && forall i :: 0 <= i < |j.fsRules| ==> b[i] == AddRule(j.fsRulesFd, j.fsRules[i])
  {
    hide Rules;
    RulesAt(j.fsRulesFd, j.fsRules);
  }

  // Remounts

  lemma {:induction false} RemountsAt(rs: seq<Remount>, mode: U64)
    requires Remounts(rs, mode).alive
    ensures var t := Remounts(rs, mode).trace;
            |t| == |rs| && forall i :: 0 <= i < |rs| ==> t[i] == RemountAt(rs[i].name, rs[i].mode)
  {
    if rs != [] {
      RemountsAt(rs[1..], mode);
    }
  }

  lemma RemountsWithin(w: World, j: Jail)
    requires Entered(w, j).alive && Vfs in j.flags && j.remountMode != 0
    ensures Remounts(j.remounts, j.remountMode).alive
    ensures Within([UnshareMounts, RemountRoot(j.remountMode)] + Remounts(j.remounts, j.remountMode).trace, Entered(w, j).trace)
  {
    hide Within, Entered, Remounts, When, Enter.Drop, Guard;
    EnteredTrace(w, j);
    var head, r := [UnshareMounts, RemountRoot(j.remountMode)], Remounts(j.remounts, j.remountMode).trace;
    var joined := When(EnterVfs in j.flags, JoinMountNs(j.settings.mountnsFd));
    WithinPart(head + r, joined, []);
    assert joined + (head + r) + [] == (joined + head) + r;
    WithinEntry(w, j, head + r);
  }

  /** A new mount namespace is unshared, its root is remounted, and then each path in its order. */
  lemma RemountsInSequence(w: World, j: Jail) returns (at: nat)
    requires Entered(w, j).alive && Vfs in j.flags && j.remountMode != 0
    ensures var t := Entered(w, j).trace;
            && at + 2 + |j.remounts| <= |t|
            && t[at] == UnshareMounts && t[at + 1] == RemountRoot(j.remountMode)
            && forall i :: 0 <= i < |j.remounts| ==> t[at + 2 + i] == RemountAt(j.remounts[i].name, j.remounts[i].mode)
  {
    hide Entered, Remounts;
    RemountsWithin(w, j);
    RemountsAt(j.remounts, j.remountMode);
    var r := Remounts(j.remounts, j.remountMode).trace;
    var b := [UnshareMounts, RemountRoot(j.remountMode)] + r;
    var t := Entered(w, j).trace;
    at :| StandsAt(b, t, at);
    assert t[at + 0] == b[0] && t[at + 1] == b[1];
    forall i | 0 <= i < |j.remounts|
      ensures t[at + 2 + i] == RemountAt(j.remounts[i].name, j.remounts[i].mode)
    {
      assert t[at + (2 + i)] == b[2 + i] == r[i];
    }
  }

  // Hooks

  /** The hooks of an event are those registered for it, in their order. */
  lemma {:induction false} HooksAre(a: seq<Hook>, b: seq<Hook>, h: Hook, event: HookEvent)
    ensures Hooks(a + b, event) == Hooks(a, event) + Hooks(b, event)
    ensures Hooks([h], event) == if h.event == event then [RunHook(h.id)] else []
  {
    HooksJoin(a, b, event);
    assert [h][1..] == [];
    assert Hooks([h][1..], event) == [];
  }

  lemma {:induction false} HooksJoin(a: seq<Hook>, b: seq<Hook>, event: HookEvent)
    ensures Hooks(a + b, event) == Hooks(a, event) + Hooks(b, event)
  {
    hide When;
    if a == [] {
      assert a + b == b;
    } else {
      HooksJoin(a[1..], b, event);
      assert (a + b)[1..] == a[1..] + b;
    }
  }

  /** Hooks run right before the root changes, either way. */
  lemma RootHooksInSequence(w: World, j: Jail)
    requires Entered(w, j).alive
    ensures Chroot in j.flags ==> Within(Hooks(j.hooks, PreChroot) + [ChangeRoot(j.chrootdir)], Entered(w, j).trace)
    ensures PivotRoot in j.flags ==> Within(Hooks(j.hooks, PreChroot) + [PivotTo(j.chrootdir)], Entered(w, j).trace)
  {
    hide Within, Entered, Hooks, Mounts, Tmp, Proc, Bounds;
    var hooks, rest := Hooks(j.hooks, PreChroot), Tmp(j) + Proc(j) + Bounds(j);
    var change := if Chroot in j.flags then hooks + [ChangeRoot(j.chrootdir)] else [];
    var pivot := if PivotRoot in j.flags then hooks + [PivotTo(j.chrootdir)] else [];
    assert Roots(j) == change + pivot;
    hide Roots;
    WithinPart(change, Mounts(j), pivot + rest);
    assert Mounts(j) + change + (pivot + rest) == Filesystem(j);
    WithinPart(pivot, Mounts(j) + change, rest);
    assert Mounts(j) + change + pivot + rest == Filesystem(j);
    WithinEntry(w, j, change);
    WithinEntry(w, j, pivot);
  }

  /** Other hooks run right before capabilities are bounded. */
  lemma CapHooksInSequence(w: World, j: Jail)
    requires Entered(w, j).alive && CapbsetDrop in j.flags
    ensures Within(Hooks(j.hooks, PreDropCaps) + [BoundCaps(j.settings.capBset)], Entered(w, j).trace)
  {
    hide Within, Entered, Hooks, Mounts, Tmp, Proc, Roots;
    var b := Hooks(j.hooks, PreDropCaps) + [BoundCaps(j.settings.capBset)];
    var lock := When(UseCaps in j.flags, LockSecurebits(j.settings.securebitsSkipMask, SetAmbientCaps !in j.flags));
    BoundsAre(j, b, lock);
    hide Bounds, When;
    var before := Mounts(j) + Roots(j) + Tmp(j) + Proc(j);
    WithinPart(b, before, lock);
    assert before + b + lock == before + (b + lock);
    WithinEntry(w, j, b);
  }

  lemma BoundsAre(j: Jail, b: seq<Effect>, lock: seq<Effect>)
    requires CapbsetDrop in j.flags && b == Hooks(j.hooks, PreDropCaps) + [BoundCaps(j.settings.capBset)]
    requires lock == When(UseCaps in j.flags, LockSecurebits(j.settings.securebitsSkipMask, SetAmbientCaps !in j.flags))
    ensures Bounds(j) == b + lock
  {
    hide Hooks;
  }

  // ---------------------------------------------------------------- what the two sides are given

  /** Before execve eleven flags are kept, five fields are emptied, and nothing else changes. */
  lemma ExecKeeps(j: Jail, f: Flag)
    ensures f in BeforeExec(j).flags <==>
            f in j.flags
            && (f == Vfs || f == EnterVfs || f == NsCgroups || f == Net || f == Uts || f == RemountProcRo || f == Userns
                || f == UsingMinimalisticMountns || f == EnableFsRestrictions || f == EnableProfileFsRestrictions
                || f == EnableDefaultRuntime)
    ensures var r := BeforeExec(j);
            && r.user == None && r.supplGids == None && r.preloadPath == None && r.mounts == [] && r.fsRules == []
            && r.(flags := j.flags, user := j.user, supplGids := j.supplGids, preloadPath := j.preloadPath,
                  mounts := j.mounts, fsRules := j.fsRules) == j
  {
  }

  /** The preloaded library lowers sixteen flags, forgets the remounts, and changes nothing else. */
  lemma EnterKeeps(j: Jail, f: Flag)
    ensures f in BeforeEnter(j).flags <==>
            f in j.flags
            && f != Vfs && f != EnterVfs && f != NsCgroups && f != Net && f != Uts && f != RemountProcRo && f != Pids
            && f != DoInit && f != RunAsInit && f != PidFile && f != Cgroups && f != ForwardSignals && f != Setsid
            && f != UsingMinimalisticMountns && f != EnableProfileFsRestrictions && f != EnableDefaultRuntime
    ensures var r := BeforeEnter(j);
            r.remountMode == 0 && r.remounts == []
            && r.(flags := j.flags, remountMode := j.remountMode, remounts := j.remounts) == j
  {
  }

  /** In a process namespace whose init is the program itself, /proc is left to the program. */
  lemma ChildKeeps(j: Jail, f: Flag)
    ensures f in InChild(j).flags <==>
            f in j.flags && !(f == RemountProcRo && Pids in j.flags && (DoInit !in j.flags || RunAsInit in j.flags))
    ensures InChild(j).(flags := j.flags) == j
  {
  }

  /** A run with rules opens a ruleset of its own, keeps the descriptor across the close of all others unless 128 are
      kept already, and learns the Landlock version if it was unknown. */
  lemma LaunchKeeps(run: Kernel, j: Jail)
    ensures j.fsRules == [] ==> Launched(run, j) == j
    ensures j.fsRules != [] ==>
              var r := Launched(run, j);
              && r.fsRulesFd == run.rulesetFd
              && r.landlockAbi == (if j.landlockAbi < 0 && run.landlockAbi > 0 then run.landlockAbi else j.landlockAbi)
              && r.settings.preservedFds ==
                 j.settings.preservedFds
                 + (if run.rulesetFd >= 0 && |j.settings.preservedFds| < 128 then [FdPair(run.rulesetFd, run.rulesetFd)] else [])
              && r.(fsRulesFd := j.fsRulesFd, landlockAbi := j.landlockAbi,
                    settings := r.settings.(preservedFds := j.settings.preservedFds)) == j
  {
  }
}
