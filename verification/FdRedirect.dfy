/** File descriptor redirection in the child process (libminijail.c).  The fd table maps
    open descriptors to open files; dup2 and close succeed on open descriptors. */
module FdRedirect {
  import opened Sets

  type File = nat

  type Table = map<int, File>

  const FD_SETSIZE: int := 1024

  datatype Preserved = Preserved(parent: int, child: int)

  function Children(ps: seq<Preserved>): set<int> {
    if ps == [] then {} else Children(ps[..|ps| - 1]) + {ps[|ps| - 1].child}
  }

  function Parents(ps: seq<Preserved>): set<int> {
    if ps == [] then {} else Parents(ps[..|ps| - 1]) + {ps[|ps| - 1].parent}
  }

  lemma {:induction false} Listed(ps: seq<Preserved>, i: nat)
    requires i < |ps|
    ensures ps[i].child in Children(ps) && ps[i].parent in Parents(ps)
  {
    if i < |ps| - 1 {
      Listed(ps[..|ps| - 1], i);
    }
  }

  lemma {:induction false} ChildAt(ps: seq<Preserved>, fd: int) returns (i: nat)
    requires fd in Children(ps)
    ensures i < |ps| && ps[i].child == fd
  {
    i := |ps| - 1;
    if ps[i].child != fd {
      i := ChildAt(ps[..i], fd);
    }
  }

  lemma {:induction false} ParentAt(ps: seq<Preserved>, fd: int) returns (i: nat)
    requires fd in Parents(ps)
    ensures i < |ps| && ps[i].parent == fd
  {
    i := |ps| - 1;
    if ps[i].parent != fd {
      i := ParentAt(ps[..i], fd);
    }
  }

  lemma {:induction false} ChildrenPrefix(ps: seq<Preserved>, k: nat)
    requires k <= |ps|
    ensures Children(ps[..k]) <= Children(ps)
    ensures k < |ps| ==> Children(ps[..k + 1]) == Children(ps[..k]) + {ps[k].child}
    decreases |ps| - k
  {
    if k == |ps| {
      assert ps[..k] == ps;
    } else {
      assert ps[..k + 1][..k] == ps[..k];
      ChildrenPrefix(ps, k + 1);
    }
  }

  ghost predicate DistinctChildren(ps: seq<Preserved>) {
    forall i, j :: 0 <= i < j < |ps| ==> ps[i].child != ps[j].child
  }

  predicate InSet(fd: int) { 0 <= fd < FD_SETSIZE }

  /** What the callers guarantee: every descriptor fits an fd_set and the sources are open. */
  ghost predicate Redirectable(t: Table, ps: seq<Preserved>) {
    forall i :: 0 <= i < |ps| ==> InSet(ps[i].parent) && ps[i].parent in t && InSet(ps[i].child)
  }

  /** Every descriptor of an fd_set is open or about to be replaced. */
  ghost predicate NoneLeft(t: Table, children: set<int>) {
    forall fd :: InSet(fd) ==> fd in t || fd in children
  }

  /** There is a descriptor for every relocation that could become necessary: each opens at most one. */
  ghost predicate Roomy(t: Table, ps: seq<Preserved>, pipes: nat) {
    Used(t, Children(ps)) + |ps| + pipes <= FD_SETSIZE
  }

  /** How many descriptors are open or about to be replaced. */
  ghost function Used(t: Table, children: set<int>): nat { |t.Keys + children| }

  ghost predicate AllOpen(t: Table) { forall fd :: InSet(fd) ==> fd in t }

  /** Source `i` is replaced by an earlier redirection. */
  ghost predicate Overlap(ps: seq<Preserved>, i: nat) {
    i < |ps| && ps[i].parent in Children(ps[..i])
  }

  ghost predicate Overlapping(ps: seq<Preserved>) { exists i :: Overlap(ps, i) }

  lemma OverlapsInside(ps: seq<Preserved>)
    requires forall k :: 0 <= k < |ps| ==> !Overlap(ps, k)
    ensures !Overlapping(ps)
  {
  }

  function Below(n: nat): set<int> { if n == 0 then {} else Below(n - 1) + {n - 1} }

  lemma {:induction false} BelowSize(n: nat)
    ensures |Below(n)| == n && forall fd :: fd in Below(n) <==> 0 <= fd < n
  {
    if n > 0 {
      BelowSize(n - 1);
    }
  }

  /** With no descriptor left the open and the replaced ones together are all of them. */
  lemma FullIsLarge(t: Table, children: set<int>, all: set<int>)
    requires children <= all
    ensures NoneLeft(t, children) ==> Used(t, all) >= FD_SETSIZE
  {
    hide Below;
    if NoneLeft(t, children) {
      BelowSize(FD_SETSIZE);
      forall fd | fd in Below(FD_SETSIZE)
        ensures fd in t.Keys + all
      {
        assert InSet(fd);
      }
      SubsetSize(Below(FD_SETSIZE), t.Keys + all);
    }
  }

  lemma OneMoreOpen(a: Table, b: Table, moved: int, all: set<int>)
    requires b.Keys == a.Keys + {moved}
    ensures Used(b, all) <= Used(a, all) + 1
  {
    assert b.Keys + all == (a.Keys + all) + {moved};
  }

  lemma AllOpenIsFull(t: Table, ps: seq<Preserved>, i: nat, children: set<int>)
    requires Redirectable(t, ps) && i < |ps| && children == Children(ps[..i])
    ensures AllOpen(t) ==> NoneLeft(t, children) && ps[i].child in t
    ensures Overlap(ps, i) <==> ps[i].parent in children
  {
  }

  /** Descriptors 3 and 4 are to be swapped while every descriptor of the set is open. */
  const FULL_TABLE: Table := map fd | 0 <= fd < FD_SETSIZE :: fd

  const SWAP: seq<Preserved> := [Preserved(3, 4), Preserved(4, 3)]

  /** Two preserved descriptors, far fewer than the launcher admits, and yet no unused descriptor: on this input set-up
      cannot succeed, whatever the number of preserved descriptors is compared with. */
  lemma FullTableOverlaps()
    ensures Redirectable(FULL_TABLE, SWAP) && DistinctChildren(SWAP)
    ensures AllOpen(FULL_TABLE) && Overlapping(SWAP) && !Roomy(FULL_TABLE, SWAP, 0)
  {
    hide Used;
    assert SWAP[..1] == [SWAP[0]] && SWAP[..1][..0] == [];
    assert Children(SWAP[..1]) == {4};
    assert Overlap(SWAP, 1);
    assert NoneLeft(FULL_TABLE, {});
    FullIsLarge(FULL_TABLE, {}, Children(SWAP));
  }

  /** `b` is `a` with some closed descriptors opened. */
  ghost predicate Extends(a: Table, b: Table) {
    forall fd :: fd in a ==> fd in b && b[fd] == a[fd]
  }

  /** `moved` names in `b` the file that `fd` names in `a`; it is `fd` itself or was closed in `a`. */
  ghost predicate Relocated(a: Table, b: Table, fd: int, moved: int) {
    && fd in a && moved in b && b[moved] == a[fd]
    && (moved == fd || moved !in a)
    && InSet(moved)
  }

  /** After relocation every source still names its file and no earlier redirection replaces it. */
  ghost predicate Prepared(t0: Table, t: Table, ps: seq<Preserved>, qs: seq<Preserved>) {
    && |qs| == |ps| && Extends(t0, t)
    && (forall i :: 0 <= i < |ps| ==> qs[i].child == ps[i].child)
    && (forall i :: 0 <= i < |ps| ==> Relocated(t0, t, ps[i].parent, qs[i].parent))
    && (forall i :: 0 <= i < |ps| && qs[i].parent != ps[i].parent ==> ps[i].parent in Children(ps))
    && (forall i, j :: 0 <= j < i < |ps| ==> qs[i].parent != ps[j].child)
    && (forall fd :: fd in t && fd !in t0 ==> fd in Parents(qs))
  }

  lemma {:induction false} PreparedStep(t0: Table, t1: Table, t2: Table, ps: seq<Preserved>, qs: seq<Preserved>,
                                        p: Preserved, moved: int)
    requires Prepared(t0, t1, ps, qs) && Extends(t1, t2)
    requires Relocated(t1, t2, p.parent, moved) && p.parent in t0
    requires moved !in Children(ps) && (moved != p.parent ==> p.parent in Children(ps))
    requires t2.Keys == t1.Keys + {moved}
    ensures Prepared(t0, t2, ps + [p], qs + [Preserved(moved, p.child)])
  {
    var ps', qs' := ps + [p], qs + [Preserved(moved, p.child)];
    assert ps'[..|ps|] == ps && qs'[..|qs|] == qs;
    forall i | 0 <= i < |ps|
      ensures Relocated(t0, t2, ps[i].parent, qs[i].parent)
      ensures ps[i].child != moved
    {
      assert Relocated(t0, t1, ps[i].parent, qs[i].parent);
      Listed(ps, i);
    }
    assert Relocated(t0, t2, p.parent, moved);
  }

  class Child {
    var table: Table
    var preserved: seq<Preserved>
    var pipes: seq<int>

    constructor (table: Table, preserved: seq<Preserved>, pipes: seq<int>)
      ensures this.table == table && this.preserved == preserved && this.pipes == pipes
    {
      this.table, this.preserved, this.pipes := table, preserved, pipes;
    }

    /** ensure_no_fd_conflict: a descriptor that a child fd will replace is moved out of the way, to `child` if that
        is closed and else to the highest unused descriptor. */
    method EnsureNoFdConflict(children: set<int>, child: int, parent: int) returns (ok: bool, moved: int)
      requires parent in table && InSet(parent)
      requires child == -1 || (InSet(child) && child !in children)
      modifies this`table
      ensures ok ==> Extends(old(table), table) && Relocated(old(table), table, parent, moved) && moved !in children
      ensures ok ==> table.Keys == old(table.Keys) + {moved}
      ensures ok ==> moved == parent || parent in children
      ensures parent !in children ==> moved == parent && table == old(table)
      ensures ok && parent in children ==>
                if child != -1 && child !in old(table) then moved == child else IsHighest(old(table), children, moved)
      ensures !ok <==> parent in children && (child == -1 || child in old(table)) && NoneLeft(old(table), children)
      ensures !ok ==> table == old(table)
    {
      if parent !in children {
        return true, parent;
      }
      var fd := child;
      if fd == -1 || fd in table {
        fd := FD_SETSIZE - 1;
        while fd in children || fd in table
          invariant 0 <= fd < FD_SETSIZE
          invariant forall g :: fd < g < FD_SETSIZE ==> g in table || g in children
          decreases fd
        {
          fd := fd - 1;
          if fd < 0 {
            return false, parent;
          }
        }
      }
      table := table[fd := table[parent]];
      return true, fd;
    }

    /** get_child_fds: collects the child fds and moves every source that an earlier redirection would overwrite. */
    method GetChildFds() returns (ok: bool, children: set<int>)
      requires Redirectable(table, preserved)
      modifies this`table, this`preserved
      ensures ok ==> DistinctChildren(old(preserved)) && children == Children(old(preserved))
      ensures ok ==> Prepared(old(table), table, old(preserved), preserved)
      ensures ok ==> Used(table, children) <= Used(old(table), children) + |old(preserved)|
      ensures !ok ==> !DistinctChildren(old(preserved)) || !Roomy(old(table), old(preserved), 0)
      ensures AllOpen(old(table)) && Overlapping(old(preserved)) ==> !ok
    {
      hide Prepared, Children, Used, NoneLeft, AllOpen, Overlap, Extends, Relocated;
      ghost var all := Children(preserved);
      children := {};
      ghost var t0, ps := table, preserved;
      NothingPrepared(t0);
      for i := 0 to |preserved|
        invariant |preserved| == |ps| && preserved[i..] == ps[i..]
        invariant children == Children(ps[..i]) && DistinctChildren(ps[..i])
        invariant Prepared(t0, table, ps[..i], preserved[..i])
        invariant Used(table, all) <= Used(t0, all) + i
        invariant AllOpen(t0) ==> table == t0 && forall k :: 0 <= k < i ==> !Overlap(ps, k)
      {
        var p := preserved[i];
        assert p == ps[i] && Redirectable(t0, ps);
        ChildrenPrefix(ps, i);
        if p.child in children {
          var k := ChildAt(ps[..i], p.child);
          assert ps[k].child == ps[i].child;
          return false, children;
        }
        ghost var t1, qs := table, preserved[..i];
        PreparedExtends(t0, t1, ps[..i], qs);
        var moved;
        FullIsLarge(table, children, all);
        AllOpenIsFull(t0, ps, i, children);
        ok, moved := EnsureNoFdConflict(children, p.child, p.parent);
        if !ok {
          return;
        }
        OneMoreOpen(t1, table, moved, all);
        PreparedStep(t0, t1, table, ps[..i], qs, p, moved);
        preserved := preserved[i := Preserved(moved, p.child)];
        children := children + {p.child};
        assert preserved[i + 1..] == ps[i + 1..];
        assert ps[..i + 1] == ps[..i] + [p] && preserved[..i + 1] == qs + [Preserved(moved, p.child)];
        DistinctSnoc(ps, i);
      }
      assert ps[..|ps|] == ps && preserved[..|ps|] == preserved;
      if AllOpen(t0) {
        OverlapsInside(ps);
      }
      ok := true;
    }

    /** avoid_pipe_conflicts, and the same for the ELF descriptor: pipe ends that a child fd would replace are moved. */
    method AvoidPipeConflicts(children: set<int>) returns (ok: bool)
      requires PipesOpen(table, pipes)
      modifies this`table, this`pipes
      ensures ok ==> PipesMoved(old(table), table, old(pipes), pipes, children)
      ensures !ok ==> Used(old(table), children) + |old(pipes)| > FD_SETSIZE
    {
      hide PipesMoved, Used, NoneLeft, Extends, Relocated;
      ghost var t0, ps := table, pipes;
      NoPipesMoved(t0, children);
      for k := 0 to |pipes|
        invariant |pipes| == |ps| && pipes[k..] == ps[k..]
        invariant PipesMoved(t0, table, ps[..k], pipes[..k], children)
        invariant Used(table, children) <= Used(t0, children) + k
      {
        var fd := pipes[k];
        assert fd == ps[k];
        ghost var t1, qs := table, pipes[..k];
        PipesExtend(t0, t1, ps[..k], qs, children);
        if fd != -1 {
          var moved;
          FullIsLarge(table, children, children);
          ok, moved := EnsureNoFdConflict(children, -1, fd);
          if !ok {
            return;
          }
          OneMoreOpen(t1, table, moved, children);
          pipes := pipes[k := moved];
        }
        PipesStep(t0, t1, table, ps[..k], qs, children, fd, pipes[k]);
        assert ps[..k + 1] == ps[..k] + [fd] && pipes[..k + 1] == qs + [pipes[k]];
      }
      assert ps[..|ps|] == ps && pipes[..|ps|] == pipes;
      ok := true;
    }

    /** redirect_fds: duplicates every source onto its child fd, then closes the sources that are not child fds. */
    method RedirectFds(children: set<int>)
      requires children == Children(preserved) && DistinctChildren(preserved)
      requires forall i :: 0 <= i < |preserved| ==> preserved[i].parent in table
      requires forall i, j :: 0 <= j < i < |preserved| ==> preserved[i].parent != preserved[j].child
      modifies this`table
      ensures table == Closed(Duplicated(old(table), preserved), preserved, children)
    {
      ghost var t0 := table;
      for i := 0 to |preserved|
        invariant table == Duplicated(t0, preserved[..i])
      {
        var p := preserved[i];
        assert preserved[..i + 1][..i] == preserved[..i];
        StillOpen(t0, preserved, i);
        if p.parent != p.child {
          table := table[p.child := table[p.parent]];
        }
      }
      assert preserved[..|preserved|] == preserved;
      ghost var t1 := table;
      for i := 0 to |preserved|
        invariant table == Closed(t1, preserved[..i], children)
      {
        assert preserved[..i + 1][..i] == preserved[..i];
        var parent := preserved[i].parent;
        if parent !in children {
          table := table - {parent};
        }
      }
      assert preserved[..|preserved|] == preserved;
    }

    /** The whole sequence in the child: relocate, move pipes, redirect. */
    method SetUp() returns (ok: bool)
      requires Redirectable(table, preserved) && PipesOpen(table, pipes)
      modifies this
      ensures ok ==> DistinctChildren(old(preserved))
      ensures ok ==> Redirected(old(table), table, old(preserved), old(pipes), pipes)
      ensures DistinctChildren(old(preserved)) && Roomy(old(table), old(preserved), |old(pipes)|) ==> ok
      ensures AllOpen(old(table)) && Overlapping(old(preserved)) ==> !ok
    {
      hide Prepared, PipesMoved, Redirected, Closed, Duplicated, Children;
      ghost var t0, ps, fds := table, preserved, pipes;
      var children;
      ok, children := GetChildFds();
      if !ok {
        return;
      }
      ghost var t1 := table;
      PreparedPipes(t0, t1, ps, preserved, pipes);
      ok := AvoidPipeConflicts(children);
      if !ok {
        return;
      }
      ghost var t2 := table;
      Ready(t0, t1, t2, ps, preserved, fds, pipes, children);
      RedirectFds(children);
      AllRedirected(t0, t1, t2, ps, preserved, fds, pipes, children);
    }
  }

  // ----- Pipes -----

  ghost predicate PipesOpen(t: Table, pipes: seq<int>) {
    forall k :: 0 <= k < |pipes| && pipes[k] != -1 ==> pipes[k] in t && InSet(pipes[k])
  }

  /** Every pipe end is open under a descriptor that is not a child fd, unchanged unless it was one. */
  ghost predicate PipesMoved(t0: Table, t: Table, old_: seq<int>, now: seq<int>, children: set<int>) {
    && |now| == |old_| && Extends(t0, t)
    && (forall k :: 0 <= k < |old_| && old_[k] == -1 ==> now[k] == -1)
    && (forall k :: 0 <= k < |old_| && old_[k] != -1 ==> Relocated(t0, t, old_[k], now[k]))
    && (forall k :: 0 <= k < |old_| && old_[k] != -1 ==> now[k] !in children)
    && (forall k :: 0 <= k < |old_| && now[k] != old_[k] ==> old_[k] in children)
    && (forall fd :: fd in t && fd !in t0 ==> fd in now)
  }

  lemma PipesStep(t0: Table, t1: Table, t2: Table, old_: seq<int>, now: seq<int>, children: set<int>, fd: int,
                  moved: int)
    requires PipesMoved(t0, t1, old_, now, children)
    requires fd == -1 ==> moved == -1 && t2 == t1
    requires fd != -1 ==> && fd in t0 && Extends(t1, t2) && Relocated(t1, t2, fd, moved) && moved !in children
                          && t2.Keys == t1.Keys + {moved} && (moved == fd || fd in children)
    ensures PipesMoved(t0, t2, old_ + [fd], now + [moved], children)
  {
    forall k | 0 <= k < |old_| && old_[k] != -1
      ensures Relocated(t0, t2, old_[k], now[k])
    {
      assert Relocated(t0, t1, old_[k], now[k]);
    }
  }

  lemma NoPipesMoved(t: Table, children: set<int>)
    ensures PipesMoved(t, t, [], [], children)
  {
  }

  lemma PipesExtend(t0: Table, t: Table, old_: seq<int>, now: seq<int>, children: set<int>)
    requires PipesMoved(t0, t, old_, now, children)
    ensures Extends(t0, t)
  {
  }

  lemma PreparedPipes(t0: Table, t1: Table, ps: seq<Preserved>, qs: seq<Preserved>, pipes: seq<int>)
    requires Prepared(t0, t1, ps, qs) && PipesOpen(t0, pipes)
    ensures PipesOpen(t1, pipes)
  {
  }

  // ----- Redirection -----

  /** The dup2 loop. */
  function Duplicated(t: Table, ps: seq<Preserved>): Table {
    if ps == [] then t
    else
      var u, p := Duplicated(t, ps[..|ps| - 1]), ps[|ps| - 1];
      if p.parent == p.child || p.parent !in u then u else u[p.child := u[p.parent]]
  }

  /** The close loop. */
  function Closed(t: Table, ps: seq<Preserved>, children: set<int>): Table {
    if ps == [] then t
    else
      var u, parent := Closed(t, ps[..|ps| - 1], children), ps[|ps| - 1].parent;
      if parent in children then u else u - {parent}
  }

  ghost predicate Undisturbed(t: Table, ps: seq<Preserved>) {
    && DistinctChildren(ps)
    && (forall i :: 0 <= i < |ps| ==> ps[i].parent in t)
    && (forall i, j :: 0 <= j < i < |ps| ==> ps[i].parent != ps[j].child)
  }

  /** Each child fd names its source's file and everything else is as before. */
  lemma {:induction false} DuplicatedIs(t: Table, ps: seq<Preserved>)
    requires Undisturbed(t, ps)
    ensures forall fd :: fd !in Children(ps) ==> (fd in Duplicated(t, ps) <==> fd in t)
    ensures forall fd :: fd !in Children(ps) && fd in t ==> Duplicated(t, ps)[fd] == t[fd]
    ensures forall i :: 0 <= i < |ps| ==> ps[i].child in Duplicated(t, ps) && Duplicated(t, ps)[ps[i].child] == t[ps[i].parent]
  {
    if ps != [] {
      var n := |ps| - 1;
      var before, p := ps[..n], ps[n];
      DuplicatedIs(t, before);
      assert p.parent !in Children(before) by {
        if p.parent in Children(before) {
          var j := ChildAt(before, p.parent);
          assert false;
        }
      }
    }
  }

  lemma {:induction false} StillOpen(t: Table, ps: seq<Preserved>, i: nat)
    requires i < |ps| && Undisturbed(t, ps)
    ensures ps[i].parent in Duplicated(t, ps[..i])
  {
    var before := ps[..i];
    DuplicatedIs(t, before);
    if ps[i].parent in Children(before) {
      var j := ChildAt(before, ps[i].parent);
    }
  }

  lemma {:induction false} ClosedIs(t: Table, ps: seq<Preserved>, children: set<int>)
    ensures forall fd :: fd in Closed(t, ps, children) <==> fd in t && (fd in Parents(ps) ==> fd in children)
    ensures forall fd :: fd in Closed(t, ps, children) ==> Closed(t, ps, children)[fd] == t[fd]
  {
    if ps != [] {
      ClosedIs(t, ps[..|ps| - 1], children);
    }
  }

  /** The outcome, for any cycles and overlaps: every child fd names the file its parent fd named originally; any other
      parent fd is closed; no temporary is left; pipe ends still name their files unless one is itself a parent fd
      that is not a child fd; and everything else is untouched. */
  ghost predicate Redirected(t0: Table, t: Table, ps: seq<Preserved>, pipes: seq<int>, now: seq<int>) {
    && |now| == |pipes|
    && (forall i :: 0 <= i < |ps| ==> ps[i].parent in t0 && ps[i].child in t && t[ps[i].child] == t0[ps[i].parent])
    && (forall fd :: fd in t0 && fd !in Children(ps) ==> (fd in t <==> fd !in Parents(ps)))
    && (forall fd :: fd in t0 && fd in t && fd !in Children(ps) ==> t[fd] == t0[fd])
    && (forall fd :: fd in t && fd !in t0 ==> fd in Children(ps) || fd in now)
    && (forall k :: 0 <= k < |pipes| ==> PipeKept(t0, t, ps, pipes[k], now[k]))
  }

  ghost predicate PipeKept(t0: Table, t: Table, ps: seq<Preserved>, fd: int, now: int) {
    if fd == -1 then now == -1
    else if fd in Parents(ps) && fd !in Children(ps) then now !in t
    else fd in t0 && now in t && t[now] == t0[fd]
  }

  lemma {:induction false} SameChildren(ps: seq<Preserved>, qs: seq<Preserved>)
    requires |ps| == |qs| && forall i :: 0 <= i < |ps| ==> qs[i].child == ps[i].child
    ensures Children(qs) == Children(ps)
  {
    if ps != [] {
      SameChildren(ps[..|ps| - 1], qs[..|ps| - 1]);
    }
  }

  lemma {:induction false} Ready(t0: Table, t1: Table, t2: Table, ps: seq<Preserved>, qs: seq<Preserved>,
                                 old_: seq<int>, now: seq<int>, children: set<int>)
    requires Prepared(t0, t1, ps, qs) && DistinctChildren(ps) && children == Children(ps)
    requires PipesMoved(t1, t2, old_, now, children)
    ensures Children(qs) == children && Undisturbed(t2, qs)
  {
    SameChildren(ps, qs);
    forall i | 0 <= i < |qs|
      ensures qs[i].parent in t2
    {
      assert Relocated(t0, t1, ps[i].parent, qs[i].parent);
    }
  }

  /** The sources after relocation are the original ones, apart from descriptors that were closed. */
  lemma {:induction false} SourcesAre(t0: Table, t1: Table, ps: seq<Preserved>, qs: seq<Preserved>, fd: int)
    requires Prepared(t0, t1, ps, qs) && fd in t0 && fd !in Children(ps)
    ensures fd in Parents(qs) <==> fd in Parents(ps)
  {
    if fd in Parents(qs) {
      var i := ParentAt(qs, fd);
      assert Relocated(t0, t1, ps[i].parent, qs[i].parent);
      Listed(ps, i);
    }
    if fd in Parents(ps) {
      var i := ParentAt(ps, fd);
      Listed(qs, i);
    }
  }

  lemma {:induction false} ParentsOpen(t0: Table, t1: Table, ps: seq<Preserved>, qs: seq<Preserved>, fd: int)
    requires Prepared(t0, t1, ps, qs) && fd in Parents(qs)
    ensures fd in t1
  {
    var i := ParentAt(qs, fd);
    assert Relocated(t0, t1, ps[i].parent, qs[i].parent);
  }

  lemma {:induction false} AllRedirected(t0: Table, t1: Table, t2: Table, ps: seq<Preserved>, qs: seq<Preserved>,
                                         old_: seq<int>, now: seq<int>, children: set<int>)
    requires Prepared(t0, t1, ps, qs) && DistinctChildren(ps) && children == Children(ps) == Children(qs)
    requires PipesOpen(t0, old_) && PipesMoved(t1, t2, old_, now, children) && Undisturbed(t2, qs)
    ensures Redirected(t0, Closed(Duplicated(t2, qs), qs, children), ps, old_, now)
  {
    hide Duplicated, Closed, Children, Parents;
    var u := Duplicated(t2, qs);
    var t := Closed(u, qs, children);
    DuplicatedIs(t2, qs);
    ClosedIs(u, qs, children);
    forall i | 0 <= i < |ps|
      ensures ps[i].parent in t0 && ps[i].child in t && t[ps[i].child] == t0[ps[i].parent]
    {
      assert Relocated(t0, t1, ps[i].parent, qs[i].parent);
      Listed(ps, i);
      assert qs[i].child in u;
    }
    forall fd | fd in t0 && fd !in children
      ensures fd in t <==> fd !in Parents(ps)
    {
      SourcesAre(t0, t1, ps, qs, fd);
    }
    forall k | 0 <= k < |old_|
      ensures PipeKept(t0, t, ps, old_[k], now[k])
    {
      AllPipesKept(t0, t1, t2, ps, qs, old_, now, children, k);
    }
  }

  lemma {:induction false} AllPipesKept(t0: Table, t1: Table, t2: Table, ps: seq<Preserved>, qs: seq<Preserved>,
                                        old_: seq<int>, now: seq<int>, children: set<int>, k: nat)
    requires Prepared(t0, t1, ps, qs) && DistinctChildren(ps) && children == Children(ps) == Children(qs)
    requires PipesOpen(t0, old_) && PipesMoved(t1, t2, old_, now, children) && Undisturbed(t2, qs) && k < |old_|
    ensures PipeKept(t0, Closed(Duplicated(t2, qs), qs, children), ps, old_[k], now[k])
  {
    hide Duplicated, Closed, Children, Parents;
    var u := Duplicated(t2, qs);
    DuplicatedIs(t2, qs);
    ClosedIs(u, qs, children);
    var fd := old_[k];
    if fd != -1 {
      assert Relocated(t1, t2, fd, now[k]) && now[k] !in children;
      if fd in children {
        if now[k] in Parents(qs) {
          ParentsOpen(t0, t1, ps, qs, now[k]);
        }
      } else {
        SourcesAre(t0, t1, ps, qs, fd);
      }
    }
  }

  lemma NothingPrepared(t: Table)
    ensures Prepared(t, t, [], []) && Children([]) == {}
  {
  }

  /** `fd` is the highest descriptor that is neither open nor a child fd. */
  ghost predicate IsHighest(t: Table, children: set<int>, fd: int) {
    InSet(fd) && fd !in t && fd !in children && forall g :: fd < g < FD_SETSIZE ==> g in t || g in children
  }

  lemma PreparedExtends(t0: Table, t: Table, ps: seq<Preserved>, qs: seq<Preserved>)
    requires Prepared(t0, t, ps, qs)
    ensures Extends(t0, t)
  {
  }

  lemma DistinctSnoc(ps: seq<Preserved>, i: nat)
    requires i < |ps| && DistinctChildren(ps[..i]) && ps[i].child !in Children(ps[..i])
    ensures DistinctChildren(ps[..i + 1])
  {
    forall k | 0 <= k < i
      ensures ps[k].child != ps[i].child
    {
      Listed(ps[..i], k);
    }
  }
}
