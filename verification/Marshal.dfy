/** Marshalling a jail into a byte buffer: the wire format, and the bounded writer that
    serves both to measure a jail and to serialise it. */
module Marshal {
  import opened Bits
  import opened Machine
  import opened Jail

  /** The memory image of `struct minijail`: the plain values, and of each pointer that
      unmarshalling uses as a signal only whether it was null. */
  datatype Image = Image(flags: set<Flag>, settings: Settings, supplGidCount: U64, filterLen: U64, mountsCount: U64,
                         fsRulesCount: U64, cgroupCount: U64, remountMode: U64, fsRulesFd: S32, landlockAbi: S32,
                         user: bool, supplGids: bool, chrootdir: bool, hostname: bool, altSyscallTable: bool,
                         seccompPolicyPath: bool)

  /** How the compiler lays the structure out in memory. */
  datatype Layout = Layout(size: nat, encode: Image -> seq<Byte>, decode: seq<Byte> -> Image)

  /** Copying the structure out and back gives the same structure. */
  ghost predicate Faithful(l: Layout) {
    forall i: Image :: |l.encode(i)| == l.size && l.decode(l.encode(i)) == i
  }

  function ImageOf(j: Jail): Image {
    Image(j.flags, j.settings, j.supplGidCount, j.filterLen, j.mountsCount, j.fsRulesCount, j.cgroupCount,
          j.remountMode, j.fsRulesFd, j.landlockAbi, j.user.Some?, j.supplGids.Some?, j.chrootdir.Some?,
          j.hostname.Some?, j.altSyscallTable.Some?, j.seccompPolicyPath.Some?)
  }

  // ---------------------------------------------------------------- the wire format

  function Str(s: CString): seq<Byte> { s + [0] }

  function OptStr(s: Option<CString>): seq<Byte> { if s.Some? then Str(s.value) else [] }

  function Words(ws: seq<nat>, width: nat): seq<Byte> {
    if ws == [] then [] else LeBytes(ws[0], width) + Words(ws[1..], width)
  }

  function MountBytes(m: Mount): seq<Byte> {
    Str(m.src) + (Str(m.dest) + (Str(m.fstype) + (LeBytes(if m.data.Some? then 1 else 0, 4)
      + (OptStr(m.data) + LeBytes(m.flags, 8)))))
  }

  function MountsBytes(ms: seq<Mount>): seq<Byte> {
    if ms == [] then [] else MountBytes(ms[0]) + MountsBytes(ms[1..])
  }

  function StrsBytes(ss: seq<CString>): seq<Byte> {
    if ss == [] then [] else Str(ss[0]) + StrsBytes(ss[1..])
  }

  function RuleBytes(r: FsRule): seq<Byte> { Str(r.path) + LeBytes(r.landlockFlags, 8) }

  function RulesBytes(rs: seq<FsRule>): seq<Byte> {
    if rs == [] then [] else RuleBytes(rs[0]) + RulesBytes(rs[1..])
  }

  function GidBytes(j: Jail): seq<Byte> {
    if j.supplGids.Some? then Words(j.supplGids.value, 4) else []
  }

  function FilterBytes(j: Jail): seq<Byte> {
    if SeccompFilter in j.flags && j.filterProg.Some? then Words(j.filterProg.value, 8) else []
  }

  /** Two's complement. */
  function FdBytes(fd: S32): seq<Byte> { LeBytes(if fd < 0 then fd + TWO32 else fd, 4) }

  /** What the pointers of the structure refer to, in the order it is written. */
  function Pointed(j: Jail): seq<seq<Byte>> {
    [OptStr(j.user), GidBytes(j), OptStr(j.chrootdir), OptStr(j.hostname), OptStr(j.altSyscallTable), FilterBytes(j)]
  }

  /** The lists, the ruleset descriptor and the policy path. */
  function Lists(j: Jail): seq<seq<Byte>> {
    [MountsBytes(j.mounts), StrsBytes(j.cgroups), RulesBytes(j.fsRules), FdBytes(j.fsRulesFd), OptStr(j.seccompPolicyPath)]
  }

  function Concat(ps: seq<seq<Byte>>): seq<Byte> {
    if ps == [] then [] else ps[0] + Concat(ps[1..])
  }

  /** The full serialisation of a jail. */
  function Wire(l: Layout, j: Jail): seq<Byte> { l.encode(ImageOf(j)) + (Concat(Pointed(j)) + Concat(Lists(j))) }

  // ---------------------------------------------------------------- the bounded writer

  lemma Grows(s: seq<Byte>, x: seq<Byte>, y: seq<Byte>)
    ensures (s + x) + y == s + (x + y)
  {
  }

  /** `struct marshal_state`: where to write, how much room is left, and how much was asked for. */
  class MarshalState {
    const buf: array<Byte>
    ghost const limit: nat
    /** What the buffer held at the start. */
    ghost const before: seq<Byte>
    var at: nat
    var available: nat
    var total: nat
    /** Everything appended so far, written or not. */
    ghost var appended: seq<Byte>

    ghost predicate Valid()
      reads this, buf
    {
      limit <= buf.Length && at + available == limit
      && total == |appended| && at == Min(limit, total)
      && |before| == buf.Length
      && buf[..] == appended[..at] + before[at..]
    }

    constructor (buf: array<Byte>, available: nat)
      requires available <= buf.Length
      ensures Valid() && this.buf == buf && limit == available && before == buf[..] && appended == []
    {
      this.buf := buf;
      this.limit := available;
      this.before := buf[..];
      this.available := available;
      at := 0;
      total := 0;
      appended := [];
    }

    method Append(src: seq<Byte>)
      requires Valid()
      modifies this, buf
      ensures Valid() && appended == old(appended) + src
    {
      var copyLen := Min(available, |src|);
      if copyLen != 0 {
        forall i | 0 <= i < copyLen {
          buf[at + i] := src[i];
        }
        at := at + copyLen;
        available := available - copyLen;
      }
      total := total + |src|;
      appended := appended + src;
    }

    method AppendString(s: CString)
      requires Valid()
      modifies this, buf
      ensures Valid() && appended == old(appended) + Str(s)
    {
      Append(s + [0]);
    }

    method AppendOptional(s: Option<CString>)
      requires Valid()
      modifies this, buf
      ensures Valid() && appended == old(appended) + OptStr(s)
    {
      if s.Some? {
        AppendString(s.value);
      } else {
        assert appended == appended + [];
      }
    }

    method AppendMount(m: Mount)
      requires Valid()
      modifies this, buf
      ensures Valid() && appended == old(appended) + MountBytes(m)
    {
      hide Valid;
      ghost var was := appended;
      ghost var flags := LeBytes(m.flags, 8);
      ghost var has := LeBytes(if m.data.Some? then 1 else 0, 4);
      AppendString(m.src);
      Grows(was, Str(m.src), Str(m.dest) + (Str(m.fstype) + (has + (OptStr(m.data) + flags))));
      AppendString(m.dest);
      Grows(was + Str(m.src), Str(m.dest), Str(m.fstype) + (has + (OptStr(m.data) + flags)));
      AppendString(m.fstype);
      Grows(was + Str(m.src) + Str(m.dest), Str(m.fstype), has + (OptStr(m.data) + flags));
      Append(LeBytes(if m.data.Some? then 1 else 0, 4));
      Grows(was + Str(m.src) + Str(m.dest) + Str(m.fstype), has, OptStr(m.data) + flags);
      AppendOptional(m.data);
      Grows(was + Str(m.src) + Str(m.dest) + Str(m.fstype) + has, OptStr(m.data), flags);
      Append(LeBytes(m.flags, 8));
    }

    method AppendMounts(ms: seq<Mount>)
      requires Valid()
      modifies this, buf
      ensures Valid() && appended == old(appended) + MountsBytes(ms)
    {
      hide Valid, MountBytes;
      var i := 0;
      while i < |ms|
        invariant 0 <= i <= |ms|
        invariant Valid()
        invariant appended + MountsBytes(ms[i..]) == old(appended) + MountsBytes(ms)
      {
        ghost var was := appended;
        assert ms[i..][1..] == ms[i + 1..];
        Grows(was, MountBytes(ms[i]), MountsBytes(ms[i + 1..]));
        AppendMount(ms[i]);
        i := i + 1;
      }
    }

    method AppendStrings(ss: seq<CString>)
      requires Valid()
      modifies this, buf
      ensures Valid() && appended == old(appended) + StrsBytes(ss)
    {
      hide Valid;
      var i := 0;
      while i < |ss|
        invariant 0 <= i <= |ss|
        invariant Valid()
        invariant appended + StrsBytes(ss[i..]) == old(appended) + StrsBytes(ss)
      {
        ghost var was := appended;
        assert ss[i..][1..] == ss[i + 1..];
        Grows(was, Str(ss[i]), StrsBytes(ss[i + 1..]));
        AppendString(ss[i]);
        i := i + 1;
      }
    }

    method AppendRules(rs: seq<FsRule>)
      requires Valid()
      modifies this, buf
      ensures Valid() && appended == old(appended) + RulesBytes(rs)
    {
      hide Valid;
      var i := 0;
      while i < |rs|
        invariant 0 <= i <= |rs|
        invariant Valid()
        invariant appended + RulesBytes(rs[i..]) == old(appended) + RulesBytes(rs)
      {
        ghost var was := appended;
        assert rs[i..][1..] == rs[i + 1..];
        Grows(was, RuleBytes(rs[i]), RulesBytes(rs[i + 1..]));
        AppendString(rs[i].path);
        Append(LeBytes(rs[i].landlockFlags, 8));
        Grows(was, Str(rs[i].path), LeBytes(rs[i].landlockFlags, 8));
        i := i + 1;
      }
    }

    method AppendGids(j: Jail)
      requires Valid()
      modifies this, buf
      ensures Valid() && appended == old(appended) + GidBytes(j)
    {
      if j.supplGids.Some? {
        Append(Words(j.supplGids.value, 4));
      } else {
        assert appended == appended + [];
      }
    }

    method AppendFilter(j: Jail)
      requires Valid()
      modifies this, buf
      ensures Valid() && appended == old(appended) + FilterBytes(j)
    {
      if SeccompFilter in j.flags && j.filterProg.Some? {
        Append(Words(j.filterProg.value, 8));
      } else {
        assert appended == appended + [];
      }
    }

    method AppendPointed(j: Jail)
      requires Valid()
      modifies this, buf
      ensures Valid() && appended == old(appended) + Concat(Pointed(j))
    {
      hide Valid, OptStr, GidBytes, FilterBytes, Concat;
      ghost var ps := Pointed(j);
      ghost var w := appended;
      AppendOptional(j.user);
      ConcatStep(w, ps, 0);
      w := appended;
      AppendGids(j);
      ConcatStep(w, ps, 1);
      w := appended;
      AppendOptional(j.chrootdir);
      ConcatStep(w, ps, 2);
      w := appended;
      AppendOptional(j.hostname);
      ConcatStep(w, ps, 3);
      w := appended;
      AppendOptional(j.altSyscallTable);
      ConcatStep(w, ps, 4);
      w := appended;
      AppendFilter(j);
      ConcatStep(w, ps, 5);
      ConcatEnds(ps, appended);
    }

    method AppendLists(j: Jail)
      requires Valid()
      modifies this, buf
      ensures Valid() && appended == old(appended) + Concat(Lists(j))
    {
      hide Valid, OptStr, MountsBytes, StrsBytes, RulesBytes, Concat;
      ghost var ps := Lists(j);
      ghost var w := appended;
      AppendMounts(j.mounts);
      ConcatStep(w, ps, 0);
      w := appended;
      AppendStrings(j.cgroups);
      ConcatStep(w, ps, 1);
      w := appended;
      AppendRules(j.fsRules);
      ConcatStep(w, ps, 2);
      w := appended;
      Append(FdBytes(j.fsRulesFd));
      ConcatStep(w, ps, 3);
      w := appended;
      AppendOptional(j.seccompPolicyPath);
      ConcatStep(w, ps, 4);
      ConcatEnds(ps, appended);
    }

    /** `minijail_marshal_helper`: appends a whole jail. */
    method AppendJail(l: Layout, j: Jail)
      requires Valid()
      modifies this, buf
      ensures Valid() && appended == old(appended) + Wire(l, j)
    {
      hide Valid, Concat, Pointed, Lists;
      ghost var image := l.encode(ImageOf(j));
      ghost var w := appended;
      Append(l.encode(ImageOf(j)));
      AppendPointed(j);
      Grows(w + image, Concat(Pointed(j)), Concat(Lists(j)));
      AppendLists(j);
      Grows(w, image, Concat(Pointed(j)) + Concat(Lists(j)));
    }
  }

  lemma ConcatStep(done: seq<Byte>, ps: seq<seq<Byte>>, k: nat)
    requires k < |ps|
    ensures (done + ps[k]) + Concat(ps[k + 1..]) == done + Concat(ps[k..])
  {
    assert ps[k..][1..] == ps[k + 1..];
    Grows(done, ps[k], Concat(ps[k + 1..]));
  }

  lemma {:induction false} ConcatEnds(ps: seq<seq<Byte>>, done: seq<Byte>)
    ensures done + Concat(ps[|ps|..]) == done && Concat(ps[0..]) == Concat(ps)
  {
    assert ps[0..] == ps;
  }

  /** `minijail_size`: running the writer with no room measures the serialisation. */
  method Size(l: Layout, j: Jail) returns (size: nat)
    ensures size == |Wire(l, j)|
  {
    var none := new Byte[0];
    var state := new MarshalState(none, 0);
    state.AppendJail(l, j);
    assert state.appended == Wire(l, j);
    return state.total;
  }

  /** `minijail_marshal`: fills what it may of the buffer with the beginning of the
      serialisation, leaves the rest alone, and returns 0 exactly when everything fitted. */
  method MarshalInto(l: Layout, j: Jail, buf: array<Byte>, available: nat) returns (code: int)
    requires available <= buf.Length
    modifies buf
    ensures code == 0 || code == 1
    ensures code == 0 <==> |Wire(l, j)| <= available
    ensures var n := Min(available, |Wire(l, j)|); buf[..n] == Wire(l, j)[..n] && buf[n..] == old(buf[..])[n..]
  {
    var state := new MarshalState(buf, available);
    state.AppendJail(l, j);
    assert state.appended == Wire(l, j);
    return if state.total > available then 1 else 0;
  }
}
