/** Runs of calls of the library, and what every jail built by one satisfies. */
module Api {
  import opened Bits
  import opened Machine
  import opened Jail
  import opened Marshal
  import opened Unmarshal

  // ---------------------------------------------------------------- runs of API calls

  /** One call of the library.  `Enable` stands for the calls that only raise one flag; a bind mount is a mount, and the
      calls that add several filesystem rules are that many `AddFsRestriction`.  A call that opens a ruleset carries
      the descriptor it gets. */
  datatype Call =
    | Enable(flag: Flag)
    | Disable(flag: Flag)
    | NamespacePids(readOnlyProc: bool)
    | RemountProcReadOnlyCall
    | NamespaceEnterVfs(fd: S32)
    | NamespaceEnterNet(fd: S32)
    | ChangeUid(uid: U32)
    | ChangeGid(gid: U32)
    | ChangeUser(name: CString, uid: U32, gid: U32)
    | SetGids(gids: seq<U32>)
    | KeepCaps(mask: U64)
    | DropBoundingSet(mask: U64)
    | SkipSecurebits(mask: U64)
    | SetHostname(name: CString)
    | EnterRoot(dir: CString, pivot: bool)
    | UseAltSyscall(table: CString)
    | ParseFilters(prog: seq<U64>, path: Option<CString>)
    | SetFilters(prog: seq<U64>)
    | ClearSeccomp
    | MountCall(src: CString, dest: CString, fstype: CString, mountFlags: U64, data: Option<CString>)
    | MountTmpSize(size: U64)
    | AddToCgroup(cgroup: CString)
    | AddRlimit(limit: Rlimit)
    | PreserveFd(pair: FdPair)
    | AddFsRestriction(rule: FsRule, ruleset: S32)
    | SetRemountMode(mode: U64)
    | AddRemount(remount: Remount)
    | AddHook(hook: Hook)
    | WritePidFile(file: CString)
    | MapUids(ids: CString)
    | MapGids(ids: CString)
    | SetPreloadPath(library: CString)
    | CopyJail(ruleset: S32)

  const SECCOMP_OPTIONS: set<Flag> :=
    {SeccompFilter, SeccompFilterTsync, SeccompFilterLogging, SeccompFilterAllowSpeculation, NoNewPrivs}

  /** What a call demands of its caller: a filter program has a 16-bit length and sizes stay below the width of a
      counter.  Three flags can be lowered by themselves; capability and seccomp calls lower others. */
  predicate Legal(j: Jail, c: Call) {
    match c
    case Disable(f) => f == EnableFsRestrictions || f == EnableDefaultRuntime || f == SeccompFilterAllowSpeculation
    case ParseFilters(p, _) => |p| <= USHRT_MAX
    case SetFilters(p) => |p| <= USHRT_MAX
    case SetGids(g) => |g| < TWO64
    case MountCall(_, _, _, _, _) => j.mountsCount < TWO64 - 1
    case AddFsRestriction(_, _) => j.fsRulesCount < TWO64 - 1
    case _ => true
  }

  /** The seccomp options that must be chosen before the filter is. */
  predicate BeforeFilter(f: Flag) {
    f == SeccompFilterTsync || f == SeccompFilterAllowSpeculation || f == SeccompFilterLogging
  }

  /** Commas become line ends. */
  function Lines(ids: CString): CString {
    seq(|ids|, i requires 0 <= i < |ids| => if ids[i] == 44 then 10 else ids[i])
  }

  /** `minijail_copy_jail`: the caller goes on with the copy, or with the original when there is none. */
  function Copied(l: Layout, k: Kernel, j: Jail): Option<Jail> {
    match Rebuild(l, k, Wire(l, j))
    case Got(copy, _) => Some(copy)
    case Bad => Some(j)
    case Wild => None
  }

  /** The jail after a call, unchanged when the call reports an error, `None` when it aborts. */
  function Apply(l: Layout, k: Kernel, j: Jail, c: Call): Option<Jail>
    requires Legal(j, c)
  {
    match c
    case Enable(f) =>
      if BeforeFilter(f) && j.filterLen > 0 && j.filterProg.Some? then None else Some(j.(flags := j.flags + {f}))
    case Disable(f) => Some(j.(flags := j.flags - {f}))
    case NamespacePids(ro) => Some(j.(flags := j.flags + {Vfs, Pids, DoInit} + if ro then {RemountProcRo} else {}))
    case RemountProcReadOnlyCall => Some(j.(flags := j.flags + {Vfs, RemountProcRo}))
    case NamespaceEnterVfs(fd) => Some(j.(settings := j.settings.(mountnsFd := fd), flags := j.flags + {EnterVfs}))
    case NamespaceEnterNet(fd) => Some(j.(settings := j.settings.(netnsFd := fd), flags := j.flags + {EnterNet}))
    case ChangeUid(uid) => if uid == 0 then None else Some(j.(settings := j.settings.(uid := uid), flags := j.flags + {Uid}))
    case ChangeGid(gid) => if gid == 0 then None else Some(j.(settings := j.settings.(gid := gid), flags := j.flags + {Gid}))
    case ChangeUser(name, uid, gid) =>
      if uid == 0 then None
      else Some(j.(settings := j.settings.(uid := uid, usergid := gid), flags := j.flags + {Uid}, user := Some(name)))
    case SetGids(gids) =>
      if InheritSupplGids in j.flags || KeepSupplGids in j.flags then None
      else Some(j.(flags := j.flags + {SetSupplGids}, supplGidCount := |gids|,
                   supplGids := if |gids| == 0 then None else Some(gids)))
    case KeepCaps(mask) =>
      Some(j.(settings := j.settings.(caps := mask, capBset := if CapbsetDrop in j.flags then 0 else j.settings.capBset),
              flags := j.flags - {CapbsetDrop} + {UseCaps}))
    case DropBoundingSet(mask) =>
      if UseCaps in j.flags then None
      else Some(j.(settings := j.settings.(capBset := mask), flags := j.flags + {CapbsetDrop}))
    case SkipSecurebits(mask) => Some(j.(settings := j.settings.(securebitsSkipMask := mask)))
    case SetHostname(name) =>
      if j.hostname.Some? then Some(j) else Some(j.(flags := j.flags + {Uts}, hostname := Some(name)))
    case EnterRoot(dir, pivot) =>
      if j.chrootdir.Some? then Some(j)
      else Some(j.(chrootdir := Some(dir), flags := j.flags + {if pivot then PivotRoot else Chroot}))
    case UseAltSyscall(table) => Some(j.(altSyscallTable := Some(table), flags := j.flags + {AltSyscall}))
    case ParseFilters(p, path) => Some(j.(filterLen := |p|, filterProg := Some(p), seccompPolicyPath := path))
    case SetFilters(p) => Some(j.(filterLen := |p|, filterProg := Some(p)))
    case ClearSeccomp =>
      Some(j.(flags := j.flags - SECCOMP_OPTIONS, filterLen := 0, filterProg := None, seccompPolicyPath := None))
    case MountCall(src, dest, fstype, flags, data) =>
      var r := WithMount(j, src, dest, fstype, flags, data);
      if r.Some? then r else Some(j)
    case MountTmpSize(size) => Some(j.(settings := j.settings.(tmpfsSize := size), flags := j.flags + {MountTmp}))
    case AddToCgroup(path) =>
      if j.cgroupCount >= MAX_CGROUPS then Some(j)
      else Some(j.(cgroups := j.cgroups + [path], cgroupCount := j.cgroupCount + 1, flags := j.flags + {Cgroups}))
    case AddRlimit(limit) =>
      if |j.settings.rlimits| >= MAX_RLIMITS || (exists l :: l in j.settings.rlimits && l.kind == limit.kind) then Some(j)
      else Some(j.(settings := j.settings.(rlimits := j.settings.rlimits + [limit])))
    case PreserveFd(pair) =>
      if pair.parent < 0 || pair.child < 0 || |j.settings.preservedFds| >= MAX_PRESERVED_FDS then Some(j)
      else Some(j.(settings := j.settings.(preservedFds := j.settings.preservedFds + [pair])))
    case AddFsRestriction(rule, fd) => Some(WithFsRule(k.(rulesetFd := fd), j, rule))
    case SetRemountMode(mode) => Some(j.(remountMode := mode))
    case AddRemount(r) => if r.name == [] || r.name[0] != SLASH then Some(j) else Some(j.(remounts := j.remounts + [r]))
    case AddHook(h) => Some(j.(hooks := j.hooks + [h]))
    case WritePidFile(path) => Some(j.(pidFilePath := Some(path), flags := j.flags + {PidFile}))
    case MapUids(ids) => Some(j.(uidmap := Some(Lines(ids))))
    case MapGids(ids) => Some(j.(gidmap := Some(Lines(ids))))
    case SetPreloadPath(path) => if j.preloadPath.Some? then Some(j) else Some(j.(preloadPath := Some(path)))
    case CopyJail(fd) => Copied(l, k.(rulesetFd := fd), j)
  }

  // ---------------------------------------------------------------- what each call records

  /** The user and the group are what was asked for; root is refused by aborting. */
  lemma RecordsIdentity(l: Layout, k: Kernel, j: Jail, uid: U32, gid: U32, name: CString)
    ensures Apply(l, k, j, ChangeUid(0)) == None && Apply(l, k, j, ChangeGid(0)) == None
    ensures Apply(l, k, j, ChangeUser(name, 0, gid)) == None
    ensures uid != 0 ==>
              var r := Apply(l, k, j, ChangeUid(uid));
              && r.Some? && r.value.settings.uid == uid && r.value.flags == j.flags + {Uid}
              && r.value.(flags := j.flags, settings := r.value.settings.(uid := j.settings.uid)) == j
    ensures gid != 0 ==>
              var r := Apply(l, k, j, ChangeGid(gid));
              && r.Some? && r.value.settings.gid == gid && r.value.flags == j.flags + {Gid}
              && r.value.(flags := j.flags, settings := r.value.settings.(gid := j.settings.gid)) == j
    ensures uid != 0 ==>
              var r := Apply(l, k, j, ChangeUser(name, uid, gid));
              && r.Some? && r.value.settings.uid == uid && r.value.settings.usergid == gid && r.value.user == Some(name)
              && r.value.flags == j.flags + {Uid}
              && r.value.(flags := j.flags, user := j.user,
                          settings := r.value.settings.(uid := j.settings.uid, usergid := j.settings.usergid)) == j
  {
    hide Copied;
  }

  /** Groups are recorded with their number, and only when they are neither inherited nor kept. */
  lemma RecordsGroups(l: Layout, k: Kernel, j: Jail, gids: seq<U32>)
    requires |gids| < TWO64
    ensures Apply(l, k, j, SetGids(gids)).None? <==> InheritSupplGids in j.flags || KeepSupplGids in j.flags
    ensures var r := Apply(l, k, j, SetGids(gids));
            r.Some? ==>
              && r.value.supplGidCount == |gids| && r.value.flags == j.flags + {SetSupplGids}
              && (gids == [] ==> r.value.supplGids == None) && (gids != [] ==> r.value.supplGids == Some(gids))
              && r.value.(flags := j.flags, supplGids := j.supplGids, supplGidCount := j.supplGidCount) == j
  {
    hide Copied;
  }

  /** Keeping capabilities replaces a bounding set that was to be dropped; dropping one after keeping some aborts. */
  lemma RecordsCaps(l: Layout, k: Kernel, j: Jail, mask: U64)
    ensures var r := Apply(l, k, j, KeepCaps(mask));
            && r.Some? && r.value.settings.caps == mask && UseCaps in r.value.flags && CapbsetDrop !in r.value.flags
            && (forall f :: f != UseCaps && f != CapbsetDrop ==> (f in r.value.flags <==> f in j.flags))
            && r.value.settings.capBset == (if CapbsetDrop in j.flags then 0 else j.settings.capBset)
            && r.value.(flags := j.flags,
                        settings := r.value.settings.(caps := j.settings.caps, capBset := j.settings.capBset)) == j
  {
    hide Copied;
  }

  lemma RecordsBoundingSet(l: Layout, k: Kernel, j: Jail, mask: U64)
    ensures Apply(l, k, j, DropBoundingSet(mask)).None? <==> UseCaps in j.flags
    ensures var r := Apply(l, k, j, DropBoundingSet(mask));
            r.Some? ==>
              && r.value.settings.capBset == mask && r.value.flags == j.flags + {CapbsetDrop}
              && r.value.(flags := j.flags, settings := r.value.settings.(capBset := j.settings.capBset)) == j
    ensures var r := Apply(l, k, j, SkipSecurebits(mask));
            && r.Some? && r.value.settings.securebitsSkipMask == mask
            && r.value.(settings := r.value.settings.(securebitsSkipMask := j.settings.securebitsSkipMask)) == j
  {
    hide Copied;
  }

  /** A root is taken once: a second request for one, of either kind, changes nothing. */
  lemma RecordsRoot(l: Layout, k: Kernel, j: Jail, dir: CString, pivot: bool)
    ensures var r := Apply(l, k, j, EnterRoot(dir, pivot));
            && r.Some?
            && (j.chrootdir.Some? ==> r.value == j)
            && (j.chrootdir.None? ==>
                  && r.value.chrootdir == Some(dir) && r.value.(flags := j.flags, chrootdir := None) == j
                  && (pivot ==> r.value.flags == j.flags + {PivotRoot}) && (!pivot ==> r.value.flags == j.flags + {Chroot}))
  {
    hide Copied;
  }

  /** Namespaces: what is entered, what is unshared with it, and the host name, which is taken once. */
  lemma RecordsNamespaces(l: Layout, k: Kernel, j: Jail, fd: S32)
    ensures var r := Apply(l, k, j, NamespaceEnterVfs(fd));
            && r.Some? && r.value.settings.mountnsFd == fd && r.value.flags == j.flags + {EnterVfs}
            && r.value.(flags := j.flags, settings := r.value.settings.(mountnsFd := j.settings.mountnsFd)) == j
    ensures var r := Apply(l, k, j, NamespaceEnterNet(fd));
            && r.Some? && r.value.settings.netnsFd == fd && r.value.flags == j.flags + {EnterNet}
            && r.value.(flags := j.flags, settings := r.value.settings.(netnsFd := j.settings.netnsFd)) == j
  {
    hide Copied;
  }

  lemma RecordsPids(l: Layout, k: Kernel, j: Jail, name: CString)
    ensures var r := Apply(l, k, j, NamespacePids(false));
            r.Some? && r.value.flags == j.flags + {Vfs, Pids, DoInit} && r.value.(flags := j.flags) == j
    ensures var r := Apply(l, k, j, NamespacePids(true));
            r.Some? && r.value.flags == j.flags + {Vfs, Pids, DoInit, RemountProcRo} && r.value.(flags := j.flags) == j
    ensures var r := Apply(l, k, j, RemountProcReadOnlyCall);
            r.Some? && r.value.flags == j.flags + {Vfs, RemountProcRo} && r.value.(flags := j.flags) == j
    ensures var r := Apply(l, k, j, SetHostname(name));
            && r.Some? && (j.hostname.Some? ==> r.value == j)
            && (j.hostname.None? ==>
                  && r.value.hostname == Some(name) && r.value.flags == j.flags + {Uts}
                  && r.value.(flags := j.flags, hostname := None) == j)
  {
    hide Copied;
  }

  /** Filters: a program is stored with its length and raises no flag; clearing lowers exactly five. */
  lemma RecordsFilters(l: Layout, k: Kernel, j: Jail, prog: seq<U64>, path: Option<CString>)
    requires |prog| <= 65535
    ensures var r := Apply(l, k, j, SetFilters(prog));
            && r.Some? && r.value.filterLen == |prog| && r.value.filterProg == Some(prog)
            && r.value.(filterLen := j.filterLen, filterProg := j.filterProg) == j
    ensures var r := Apply(l, k, j, ParseFilters(prog, path));
            && r.Some? && r.value.filterLen == |prog| && r.value.filterProg == Some(prog)
            && r.value.seccompPolicyPath == path
            && r.value.(filterLen := j.filterLen, filterProg := j.filterProg, seccompPolicyPath := j.seccompPolicyPath) == j
  {
    hide Copied;
  }

  lemma RecordsNoFilter(l: Layout, k: Kernel, j: Jail, table: CString)
    ensures var r := Apply(l, k, j, ClearSeccomp);
            && r.Some? && r.value.filterLen == 0 && r.value.filterProg == None && r.value.seccompPolicyPath == None
            && (forall f :: f in r.value.flags <==>
                  f in j.flags && f != SeccompFilter && f != SeccompFilterTsync && f != SeccompFilterLogging
                  && f != SeccompFilterAllowSpeculation && f != NoNewPrivs)
            && r.value.(flags := j.flags, filterLen := j.filterLen, filterProg := j.filterProg,
                        seccompPolicyPath := j.seccompPolicyPath) == j
    ensures var r := Apply(l, k, j, UseAltSyscall(table));
            && r.Some? && r.value.altSyscallTable == Some(table) && r.value.flags == j.flags + {AltSyscall}
            && r.value.(flags := j.flags, altSyscallTable := j.altSyscallTable) == j
  {
    hide Copied;
  }

  /** One flag: three seccomp options come before the program, or the call aborts. */
  lemma RecordsFlag(l: Layout, k: Kernel, j: Jail, f: Flag)
    ensures Apply(l, k, j, Enable(f)).None? <==>
            && (f == SeccompFilterTsync || f == SeccompFilterAllowSpeculation || f == SeccompFilterLogging)
            && j.filterLen > 0 && j.filterProg.Some?
    ensures var r := Apply(l, k, j, Enable(f));
            r.Some? ==> r.value.flags == j.flags + {f} && r.value.(flags := j.flags) == j
  {
    hide Copied;
  }

  lemma RecordsLoweredFlag(l: Layout, k: Kernel, j: Jail, f: Flag)
    ensures f == EnableFsRestrictions || f == EnableDefaultRuntime || f == SeccompFilterAllowSpeculation ==>
              var r := Apply(l, k, j, Disable(f));
              r.Some? && r.value.flags == j.flags - {f} && r.value.(flags := j.flags) == j
  {
    hide Copied;
  }

  /** Lists grow at their end up to 10 control groups, 32 limits of different kinds and 128 descriptors; what does not
      fit, or is not absolute, is left out. */
  lemma RecordsCgroup(l: Layout, k: Kernel, j: Jail, path: CString)
    ensures var r := Apply(l, k, j, AddToCgroup(path));
            && r.Some? && (j.cgroupCount >= 10 ==> r.value == j)
            && (j.cgroupCount < 10 ==>
                  && r.value.cgroups == j.cgroups + [path] && r.value.cgroupCount == j.cgroupCount + 1
                  && r.value.flags == j.flags + {Cgroups}
                  && r.value.(flags := j.flags, cgroups := j.cgroups, cgroupCount := j.cgroupCount) == j)
  {
    hide Copied;
  }

  lemma RecordsRlimit(l: Layout, k: Kernel, j: Jail, limit: Rlimit)
    ensures var r, had := Apply(l, k, j, AddRlimit(limit)), j.settings.rlimits;
            var fits := |had| < 32 && forall i :: 0 <= i < |had| ==> had[i].kind != limit.kind;
            && r.Some? && (!fits ==> r.value == j)
            && (fits ==> r.value.settings.rlimits == had + [limit]
                         && r.value.(settings := r.value.settings.(rlimits := had)) == j)
  {
    hide Copied;
    var had := j.settings.rlimits;
    if l :| l in had && l.kind == limit.kind {
      var i :| 0 <= i < |had| && had[i] == l;
    }
  }

  lemma RecordsPreservedFd(l: Layout, k: Kernel, j: Jail, pair: FdPair)
    ensures var r, had := Apply(l, k, j, PreserveFd(pair)), j.settings.preservedFds;
            var fits := pair.parent >= 0 && pair.child >= 0 && |had| < 128;
            && r.Some? && (!fits ==> r.value == j)
            && (fits ==> r.value.settings.preservedFds == had + [pair]
                         && r.value.(settings := r.value.settings.(preservedFds := had)) == j)
  {
    hide Copied;
  }

  /** Remounts, hooks and the propagation mode. */
  lemma RecordsRemount(l: Layout, k: Kernel, j: Jail, remount: Remount)
    ensures var r := Apply(l, k, j, AddRemount(remount));
            && r.Some?
            && (remount.name == [] || remount.name[0] != 47 ==> r.value == j)
            && (remount.name != [] && remount.name[0] == 47 ==>
                  r.value.remounts == j.remounts + [remount] && r.value.(remounts := j.remounts) == j)
  {
    hide Copied;
  }

  lemma RecordsMode(l: Layout, k: Kernel, j: Jail, hook: Hook, mode: U64)
    ensures var r := Apply(l, k, j, SetRemountMode(mode));
            r.Some? && r.value.remountMode == mode && r.value.(remountMode := j.remountMode) == j
    ensures var r := Apply(l, k, j, AddHook(hook));
            r.Some? && r.value.hooks == j.hooks + [hook] && r.value.(hooks := j.hooks) == j
  {
    hide Copied;
  }

  /** The size of /tmp, and the paths that stay with the caller. */
  lemma RecordsTmp(l: Layout, k: Kernel, j: Jail, size: U64, path: CString)
    ensures var r := Apply(l, k, j, MountTmpSize(size));
            && r.Some? && r.value.settings.tmpfsSize == size && r.value.flags == j.flags + {MountTmp}
            && r.value.(flags := j.flags, settings := r.value.settings.(tmpfsSize := j.settings.tmpfsSize)) == j
    ensures var r := Apply(l, k, j, WritePidFile(path));
            && r.Some? && r.value.pidFilePath == Some(path) && r.value.flags == j.flags + {PidFile}
            && r.value.(flags := j.flags, pidFilePath := j.pidFilePath) == j
  {
    hide Copied;
  }

  lemma RecordsPreload(l: Layout, k: Kernel, j: Jail, path: CString)
    ensures var r := Apply(l, k, j, SetPreloadPath(path));
            && r.Some? && (j.preloadPath.Some? ==> r.value == j)
            && (j.preloadPath.None? ==> r.value.preloadPath == Some(path) && r.value.(preloadPath := None) == j)
  {
    hide Copied;
  }

  /** An id map is stored with its commas as line ends. */
  lemma RecordsMaps(l: Layout, k: Kernel, j: Jail, ids: CString)
    ensures var r := Apply(l, k, j, MapUids(ids));
            && r.Some? && r.value.uidmap.Some? && r.value.(uidmap := j.uidmap) == j
            && |r.value.uidmap.value| == |ids|
            && forall i :: 0 <= i < |ids| ==> r.value.uidmap.value[i] == if ids[i] == 44 then 10 else ids[i]
    ensures var r := Apply(l, k, j, MapGids(ids));
            && r.Some? && r.value.gidmap.Some? && r.value.(gidmap := j.gidmap) == j
            && |r.value.gidmap.value| == |ids|
            && forall i :: 0 <= i < |ids| ==> r.value.gidmap.value[i] == if ids[i] == 44 then 10 else ids[i]
  {
    hide Copied;
  }

  /** `j` is what some finite run of legal calls made of a fresh jail. */
  ghost predicate Builds(l: Layout, k: Kernel, calls: seq<Call>, j: Jail)
    decreases |calls|
  {
    if calls == [] then j == FRESH
    else
      var last := |calls| - 1;
      exists before: Jail ::
        Builds(l, k, calls[..last], before) && Legal(before, calls[last]) && Apply(l, k, before, calls[last]) == Some(j)
  }

  /** A copy is coherent, even if it is not what it was made of. */
  lemma CopyIsCoherent(l: Layout, k: Kernel, fd: S32, j: Jail)
    requires Faithful(l) && Coherent(k, j) && Copied(l, k.(rulesetFd := fd), j).Some?
    ensures Coherent(k, Copied(l, k.(rulesetFd := fd), j).value)
  {
    hide Rebuild, Wire, CoherentMounts;
    var k' := k.(rulesetFd := fd);
    if Rebuild(l, k', Wire(l, j)).Got? {
      WireSplits(l, j);
      RebuiltIsCoherent(l, k', Wire(l, j));
    }
  }

  /** A call other than a mount or a copy leaves the mounts alone and lowers no flag that they need. */
  lemma ApplyKeepsNamespace(l: Layout, k: Kernel, j: Jail, c: Call)
    requires Legal(j, c) && !c.MountCall? && !c.CopyJail? && Apply(l, k, j, c).Some?
    ensures var r := Apply(l, k, j, c).value;
            r.mounts == j.mounts && r.mountsCount == j.mountsCount
            && (Vfs in j.flags ==> Vfs in r.flags) && (EnterVfs in j.flags ==> EnterVfs in r.flags)
  {
    hide Copied;
  }

  lemma ApplyKeepsMounts(l: Layout, k: Kernel, j: Jail, c: Call)
    requires CoherentMounts(j) && Legal(j, c) && !c.CopyJail? && Apply(l, k, j, c).Some?
    ensures CoherentMounts(Apply(l, k, j, c).value)
  {
    hide Settled, Copied;
    if c.MountCall? {
      MountIsSettled(j, c.src, c.dest, c.fstype, c.mountFlags, c.data);
    } else {
      hide Apply;
      ApplyKeepsNamespace(l, k, j, c);
    }
  }

  lemma ApplyKeepsRules(l: Layout, k: Kernel, j: Jail, c: Call)
    requires CoherentRules(k, j) && Legal(j, c) && !c.CopyJail? && Apply(l, k, j, c).Some?
    ensures CoherentRules(k, Apply(l, k, j, c).value)
  {
    hide Settled, Copied;
  }

  lemma ApplyKeepsCounts(l: Layout, k: Kernel, j: Jail, c: Call)
    requires CoherentCounts(j) && Legal(j, c) && !c.CopyJail? && Apply(l, k, j, c).Some?
    ensures CoherentCounts(Apply(l, k, j, c).value)
  {
    hide DefaultData, DefaultFlags, Lines, Copied;
  }

  lemma ApplyCopies(l: Layout, k: Kernel, j: Jail, fd: S32)
    ensures Apply(l, k, j, CopyJail(fd)) == Copied(l, k.(rulesetFd := fd), j)
  {
    hide Copied;
  }

  /** Every call keeps the invariant. */
  lemma ApplyKeepsCoherent(l: Layout, k: Kernel, j: Jail, c: Call)
    requires Faithful(l) && Coherent(k, j) && Legal(j, c) && Apply(l, k, j, c).Some?
    ensures Coherent(k, Apply(l, k, j, c).value)
  {
    hide CoherentMounts, CoherentRules, CoherentCounts, Apply, Copied;
    if c.CopyJail? {
      ApplyCopies(l, k, j, c.ruleset);
      CopyIsCoherent(l, k, c.ruleset, j);
    } else {
      ApplyKeepsMounts(l, k, j, c);
      ApplyKeepsRules(l, k, j, c);
      ApplyKeepsCounts(l, k, j, c);
    }
  }

  /** Every jail built by API calls satisfies the invariant. */
  lemma {:induction false} BuiltIsCoherent(l: Layout, k: Kernel, calls: seq<Call>, j: Jail)
    requires Faithful(l) && Builds(l, k, calls, j)
    ensures Coherent(k, j)
    decreases |calls|
  {
    hide Coherent, Apply;
    if calls == [] {
      FreshIsCoherent(k);
    } else {
      var last := |calls| - 1;
      var before: Jail :|
        Builds(l, k, calls[..last], before) && Legal(before, calls[last]) && Apply(l, k, before, calls[last]) == Some(j);
      BuiltIsCoherent(l, k, calls[..last], before);
      ApplyKeepsCoherent(l, k, before, calls[last]);
    }
  }

  lemma FreshIsCoherent(k: Kernel)
    ensures Coherent(k, FRESH)
  {
  }

  /** Every jail built by API calls survives the trip to the preloaded library exactly when it has at most
      `NGROUPS_MAX` groups, no rule that grants nothing, a ruleset descriptor other than 0, and the filter it announces. */
  lemma {:induction false} BuiltRoundTrip(l: Layout, k: Kernel, calls: seq<Call>, j: Jail)
    requires Faithful(l) && Builds(l, k, calls, j)
    ensures !Torn(j) ==> Rebuild(l, k, Wire(l, j)) == if Restorable(j) then Got(Restored(j), []) else Bad
    ensures Rebuild(l, k, Wire(l, j)) == Got(Restored(j), []) <==> Restorable(j) && !Torn(j)
  {
    hide Rebuild, Wire, Coherent, Builds;
    BuiltIsCoherent(l, k, calls, j);
    RoundTrip(l, k, j);
  }

  // ---------------------------------------------------------------- copies

  /** A copy is sent like its original, so that nothing shows as long as no flag is raised. */
  lemma CopySendsTheSame(l: Layout, k: Kernel, j: Jail)
    requires Coherent(k, j)
    ensures Wire(l, Restored(j)) == Wire(l, j)
  {
    var c := Restored(j);
    assert ImageOf(c) == ImageOf(j);
    assert FilterBytes(c) == FilterBytes(j);
    assert Pointed(c) == Pointed(j) && Lists(c) == Lists(j);
  }

  /** What a copy is: a coherent jail that holds the filter it announces is copied up to what is not sent, or, when it is
      not restorable, there is no copy and the caller keeps the original. */
  lemma CopyIs(l: Layout, k: Kernel, j: Jail, fd: S32)
    requires Faithful(l) && Coherent(k, j) && !Torn(j)
    ensures Apply(l, k, j, CopyJail(fd)) == Some(if Restorable(j) then Restored(j) else j)
  {
    hide Rebuild, Wire, Restored, Restorable, Torn;
    var k' := k.(rulesetFd := fd);
    assert Coherent(k', j);
    hide Coherent;
    RoundTrip(l, k', j);
    ApplyCopies(l, k, j, fd);
  }

  /** The copy is the original itself exactly when there is nothing in it that is not sent: no local path or map, no
      remount, no hook, and no filter, or one that is in use. */
  lemma CopyIsIdenticalIff(j: Jail)
    ensures Restored(j) == j <==>
            j.pidFilePath.None? && j.uidmap.None? && j.gidmap.None? && j.preloadPath.None? && j.filename.None?
            && j.remounts == [] && j.hooks == []
            && (j.filterProg.None? || (SeccompFilter in j.flags && j.filterLen > 0))
  {
  }

  /** Raising the filter flag on a copy tears it exactly when the original held a program that was not yet in use. */
  lemma CopyTears(k: Kernel, j: Jail)
    requires Coherent(k, j) && SeccompFilter !in j.flags
    ensures Torn(Restored(j).(flags := j.flags + {SeccompFilter})) <==> j.filterLen > 0
  {
  }

  /** A program is set, the jail is copied, and the filter is asked for. */
  const TEARING: seq<Call> := [SetFilters([0]), CopyJail(3), Enable(SeccompFilter)]

  const TORN: Jail := FRESH.(flags := FRESH.flags + {SeccompFilter}, filterLen := 1)

  /** That run builds a restorable jail that is refused by the preloaded library. */
  lemma {:induction false} TearingIsRefused(l: Layout, k: Kernel)
    requires Faithful(l)
    ensures Builds(l, k, TEARING, TORN) && Restorable(TORN) && Torn(TORN)
    ensures Rebuild(l, k, Wire(l, TORN)) == Bad
  {
    hide Rebuild, Wire;
    TearingBuilds(l, k);
    TornIsShort(l, k);
  }

  lemma {:induction false} BuildsOn(l: Layout, k: Kernel, calls: seq<Call>, before: Jail, c: Call, j: Jail)
    requires Builds(l, k, calls, before) && Legal(before, c) && Apply(l, k, before, c) == Some(j)
    ensures Builds(l, k, calls + [c], j)
  {
    hide Apply;
    var all := calls + [c];
    assert all[..|all| - 1] == calls && all[|all| - 1] == c;
  }

  /** The jail of that run before it is copied. */
  const CHOSEN: Jail := FRESH.(filterLen := 1, filterProg := Some([0]))

  lemma TearingSteps(l: Layout, k: Kernel)
    requires Faithful(l)
    ensures Apply(l, k, FRESH, TEARING[0]) == Some(CHOSEN)
    ensures Apply(l, k, CHOSEN, TEARING[1]) == Some(Restored(CHOSEN))
    ensures Apply(l, k, Restored(CHOSEN), TEARING[2]) == Some(TORN)
  {
    hide Rebuild, Wire, Coherent;
    SetIsCoherent(k.(rulesetFd := 3));
    RoundTrip(l, k.(rulesetFd := 3), CHOSEN);
  }

  lemma {:induction false} ThreeCalls(l: Layout, k: Kernel, a: Call, b: Call, c: Call, j1: Jail, j2: Jail, j3: Jail)
    requires Legal(FRESH, a) && Apply(l, k, FRESH, a) == Some(j1)
    requires Legal(j1, b) && Apply(l, k, j1, b) == Some(j2)
    requires Legal(j2, c) && Apply(l, k, j2, c) == Some(j3)
    ensures Builds(l, k, [a, b, c], j3)
  {
    hide Apply, Legal, Builds;
    NoCalls(l, k);
    BuildsOn(l, k, [], FRESH, a, j1);
    assert [] + [a] == [a] && [a] + [b] == [a, b] && [a, b] + [c] == [a, b, c];
    BuildsOn(l, k, [a], j1, b, j2);
    BuildsOn(l, k, [a, b], j2, c, j3);
  }

  lemma {:induction false} NoCalls(l: Layout, k: Kernel)
    ensures Builds(l, k, [], FRESH)
  {
  }

  lemma {:induction false} TearingBuilds(l: Layout, k: Kernel)
    requires Faithful(l)
    ensures Builds(l, k, TEARING, TORN)
  {
    hide Apply, Restored, Builds;
    TearingSteps(l, k);
    ThreeCalls(l, k, TEARING[0], TEARING[1], TEARING[2], CHOSEN, Restored(CHOSEN), TORN);
    assert [TEARING[0], TEARING[1], TEARING[2]] == TEARING;
  }

  lemma SetIsCoherent(k: Kernel)
    ensures Coherent(k, CHOSEN)
  {
  }

  /** Four bytes follow the structure, where eight are read. */
  lemma TornIsShort(l: Layout, k: Kernel)
    requires Faithful(l)
    ensures Rebuild(l, k, Wire(l, TORN)) == Bad
  {
    hide TakeLists;
    WireSplits(l, TORN);
    SixPieces(Pointed(TORN), Concat(Lists(TORN)));
    FivePieces(Lists(TORN));
  }

  lemma {:induction false} LeBytesBack(b: seq<Byte>)
    ensures LeBytes(FromLe(b), |b|) == b
  {
    if b != [] {
      LeBytesBack(b[1..]);
      assert b == [b[0]] + b[1..];
    }
  }

  lemma {:induction false} WordsBack(b: seq<Byte>, n: nat)
    requires |b| == 8 * n
    ensures Words(Words64(b), 8) == b
  {
    if n > 0 {
      WordsBack(b[8..], n - 1);
      LeBytesBack(b[..8]);
      assert Words64(b) == [Word64(b[..8])] + Words64(b[8..]);
      assert Words64(b)[1..] == Words64(b[8..]);
      assert b == b[..8] + b[8..];
    }
  }

  /** The torn jail `j` read as if the beginning of its first mount's source were the filter. */
  function Misread(j: Jail): Jail
    requires j.mounts != [] && |j.mounts[0].src| >= 8 * j.filterLen
  {
    var n, m := 8 * j.filterLen, j.mounts[0];
    var src: CString := m.src[n..];
    j.(filterProg := Some(Words64(m.src[..n])), mounts := [m.(src := src)] + j.mounts[1..])
  }

  lemma MisreadMounts(j: Jail)
    requires j.mounts != [] && |j.mounts[0].src| >= 8 * j.filterLen
    ensures j.mounts[0].src[..8 * j.filterLen] + MountsBytes(Misread(j).mounts) == MountsBytes(j.mounts)
  {
    hide MountsBytes, OptStr, LeBytes;
    var n, m, q := 8 * j.filterLen, j.mounts[0], Misread(j).mounts;
    MountsHead(j.mounts);
    MountsHead(q);
    assert q[1..] == j.mounts[1..];
    assert m.src[..n] + Str(q[0].src) == Str(m.src);
    var tail := Str(m.dest) + (Str(m.fstype) + (LeBytes(if m.data.Some? then 1 else 0, 4) + (OptStr(m.data) + LeBytes(m.flags, 8))));
    assert MountBytes(m) == Str(m.src) + tail && MountBytes(q[0]) == Str(q[0].src) + tail;
    assert m.src[..n] + MountBytes(q[0]) == MountBytes(m);
    Grows(m.src[..n], MountBytes(q[0]), MountsBytes(j.mounts[1..]));
  }

  lemma {:induction false} MountsHead(ms: seq<Mount>)
    requires ms != []
    ensures MountsBytes(ms) == MountBytes(ms[0]) + MountsBytes(ms[1..])
  {
  }

  /** Both jails are written as the same bytes. */
  lemma MisreadIsSentTheSame(l: Layout, k: Kernel, j: Jail)
    requires Coherent(k, j) && Torn(j) && j.mounts != [] && |j.mounts[0].src| >= 8 * j.filterLen
    ensures Wire(l, Misread(j)) == Wire(l, j)
  {
    hide MountsBytes, OptStr, StrsBytes, RulesBytes, Concat, Words, Words64, CoherentMounts;
    var q := Misread(j);
    var bytes := j.mounts[0].src[..8 * j.filterLen];
    assert ImageOf(q) == ImageOf(j);
    WordsBack(bytes, j.filterLen);
    assert FilterBytes(j) == [] && FilterBytes(q) == bytes;
    MisreadMounts(j);
    var tail := StrsBytes(j.cgroups) + (RulesBytes(j.fsRules) + (FdBytes(j.fsRulesFd) + (OptStr(j.seccompPolicyPath) + [])));
    FivePieces(Lists(j));
    FivePieces(Lists(q));
    assert Concat(Lists(j)) == MountsBytes(j.mounts) + tail && Concat(Lists(q)) == MountsBytes(q.mounts) + tail;
    Grows(bytes, MountsBytes(q.mounts), tail);
    SixPieces(Pointed(j), Concat(Lists(j)));
    SixPieces(Pointed(q), Concat(Lists(q)));
    assert [] + Concat(Lists(j)) == bytes + Concat(Lists(q));
  }

  lemma MisreadIsCoherent(k: Kernel, j: Jail)
    requires Coherent(k, j) && Torn(j) && j.mounts != [] && |j.mounts[0].src| >= 8 * j.filterLen
    ensures Coherent(k, Misread(j)) && !Torn(Misread(j)) && (Restorable(j) ==> Restorable(Misread(j)))
  {
    hide Words64, DefaultData, DefaultFlags;
    Words64Length(j.mounts[0].src[..8 * j.filterLen], j.filterLen);
    var q := Misread(j).mounts;
    forall i | 0 <= i < |q|
      ensures Settled(q[i])
    {
      assert i > 0 ==> q[i] == j.mounts[i];
      assert Settled(j.mounts[i]);
    }
  }

  /** A torn jail whose first mount has a long source comes back as another jail, with no byte left over: the beginning
      of the source has become the filter. */
  lemma TornReadsMount(l: Layout, k: Kernel, j: Jail)
    requires Faithful(l) && Coherent(k, j) && Torn(j) && Restorable(j)
    requires j.mounts != [] && |j.mounts[0].src| >= 8 * j.filterLen
    ensures Rebuild(l, k, Wire(l, j)) == Got(Restored(Misread(j)), []) && Misread(j) != j
  {
    hide Rebuild, Wire, Coherent, Restorable, Restored, Torn;
    MisreadIsSentTheSame(l, k, j);
    MisreadIsCoherent(k, j);
    RoundTrip(l, k, Misread(j));
    TornHasNone(j);
  }

  lemma TornHasNone(j: Jail)
    requires Torn(j)
    ensures j.filterProg == None
  {
  }
}
