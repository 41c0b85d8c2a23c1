/**
 Runs of system calls on what programs see. Whatever the processes do, device 0 stays as it is and the names of
 device 1 stay a tree; and the path of a process keeps leading to its current directory, exactly as long as
 nobody removes the directory from under it and no `chdir` exceeds the limits of the normal form.
 */
module Replay {
  import opened Basics
  import opened Codec
  import opened Layout
  import opened Contents
  import opened Paths
  import opened Items
  import opened World
  import M = Mounts
  import T = Tree

  /** Both devices hold trees, and device 1 is mounted on a directory. */
  ghost predicate Trees(w: World) {
    IsTree(w.s0) && IsTree(w.s1) && 1 < w.mount < |w.s0| && w.s0[w.mount].Dir?
  }

  /** Nothing changed but the contents of files, and what is open. */
  ghost predicate SameNames(w: World, v: World) {
    && v.s0 == w.s0 && v.mount == w.mount && |v.s1| == |w.s1|
    && forall i :: 0 <= i < |w.s1| ==> v.s1[i] == w.s1[i] || (v.s1[i].File? && w.s1[i].File?)
  }

  lemma SameTree(w: World, v: World)
    requires SameNames(w, v)
    ensures TreeOf(v) == TreeOf(w)
  {
    M.JoinedExt(w.s0, w.s1, v.s1, w.mount);
  }

  // ----- what the calls do to the names -----

  lemma AttachNames(w: World, p: nat, h: Handle)
    requires Shape(w) && p < PROCS_MAX
    ensures var v := Attach(w, p, h).0; SameNames(w, v) && SameSeats(w, v) && v.s1 == w.s1 && Shape(v)
  {
  }

  /** The processes and their current directories stay. */
  ghost predicate SameSeats(w: World, v: World) {
    v.procs == w.procs && v.cwds == w.cwds && v.paths == w.paths
  }

  lemma EmptiedNames(w: World, x: T.Node, flags: Flags)
    requires Shape(w)
    ensures var v := Emptied(w, x, flags); SameNames(w, v) && SameSeats(w, v) && Shape(v)
    ensures Trees(w) ==> Trees(Emptied(w, x, flags))
  {
    hide IsTree;
    if Trees(w) && x.dev == 1 && ItemAt(w, x).File? {
      FileTree(w.s1, x.inum, File([]));
    }
  }

  lemma OpenNames(w: World, p: nat, path: string, flags: Flags)
    requires Shape(w) && p < PROCS_MAX && Trees(w)
    ensures var v := Open(w, p, path, flags).0; SameNames(w, v) && SameSeats(w, v) && Trees(v) && Shape(v)
  {
    hide IsTree, Attach, Emptied, Goal;
    var g := Goal(w, p, path, false);
    if path == "console" {
      AttachNames(w, p, OnConsole(1, flags.read, flags.write));
    } else if g.Some? {
      EmptiedNames(w, g.value, flags);
      OpenedNames(Emptied(w, g.value, flags), p, g.value, flags);
    }
  }

  lemma OpenedNames(w: World, p: nat, x: T.Node, flags: Flags)
    requires Shape(w) && p < PROCS_MAX
    ensures var v := AttachInode(w, p, x, flags).0; SameNames(w, v) && SameSeats(w, v) && v.s1 == w.s1 && Shape(v)
  {
    var off := if flags.append then SizeOf(ItemAt(w, x)) else 0;
    AttachNames(w, p, OnInode(1, flags.read, flags.write, x, off));
  }

  /** Something was added to directory `x` of device 1. */
  ghost predicate Grew(w: World, v: World) {
    && v.s0 == w.s0 && v.mount == w.mount
    && exists x, n, c, item :: CanAdd(w.s1, x, n, c, item) && v.s1 == Added(w.s1, x, n, c, item)
  }

  lemma MakeGrows(w: World, x: nat, name: string, isDir: bool)
    requires Trees(w) && x < |w.s1| && w.s1[x].Dir? && name !in w.s1[x].names && MakeIn(w, x, name, isDir).Some?
    ensures var v := MakeIn(w, x, name, isDir).value.0;
            Grew(w, v) && SameSeats(w, v) && Trees(v) && v == w.(s1 := v.s1)
  {
    hide IsTree;
    var c := FirstUnused(w.s1, 1).value;
    assert 1 < c by { M.RootIs(w.s1); }
    var item := if isDir then Dots(c, x) else File([]);
    assert CanAdd(w.s1, x, name, c, item);
    AddedTree(w.s1, x, name, c, item);
  }

  lemma CreateNames(w: World, p: nat, path: string, flags: Flags)
    requires Shape(w) && p < PROCS_MAX && Trees(w)
    ensures var v := Create(w, p, path, flags).0;
            (SameNames(w, v) || Grew(w, v)) && SameSeats(w, v) && Trees(v) && Shape(v)
  {
    hide IsTree, Goal, AttachInode, Emptied, MakeIn, BaseName;
    var g := Goal(w, p, path, true);
    GoalIsDir(w, p, path);
    if Refusal(g).None? {
      var x, name := g.value.inum, BaseName(path);
      if name in w.s1[x].names {
        var c := T.Node(1, w.s1[x].names[name]);
        EmptiedNames(w, c, flags);
        OpenedNames(Emptied(w, c, flags), p, c, flags);
      } else if MakeIn(w, x, name, false).Some? {
        MakeGrows(w, x, name, false);
        var made := MakeIn(w, x, name, false).value;
        OpenedNames(made.0, p, T.Node(1, made.1), flags);
      }
    }
  }

  lemma MkdirNames(w: World, p: nat, path: string)
    requires Shape(w) && p < PROCS_MAX && Trees(w)
    ensures var v := Mkdir(w, p, path).0; (SameNames(w, v) || Grew(w, v)) && SameSeats(w, v) && Trees(v) && Shape(v)
  {
    hide IsTree, Goal, MakeIn, BaseName;
    var g := Goal(w, p, path, true);
    GoalIsDir(w, p, path);
    if Refusal(g).None? {
      var x, name := g.value.inum, BaseName(path);
      if name !in w.s1[x].names && MakeIn(w, x, name, true).Some? {
        MakeGrows(w, x, name, true);
      }
    }
  }

  /** What a successful `rm` removes: the entry of a directory on device 1. */
  ghost predicate Loses(w: World, p: nat, path: string, x: nat, n: string) {
    && p < |w.cwds| && Goal(w, p, path, true) == Some(T.Node(1, x)) && Tokens(path) != [] && n == BaseName(path)
    && CanRemove(w.s1, x, n)
  }

  lemma RemoveNames(w: World, p: nat, path: string)
    requires Shape(w) && p < PROCS_MAX && Trees(w) && Remove(w, p, path).1 == Success && !IsDots(BaseName(path))
    ensures Goal(w, p, path, true).Some?
    ensures var v, x := Remove(w, p, path).0, Goal(w, p, path, true).value.inum;
            Loses(w, p, path, x, BaseName(path)) && v == w.(s1 := Removed(w.s1, x, BaseName(path))) && Trees(v)
  {
    hide IsTree, Goal, BaseName;
    var g := Goal(w, p, path, true);
    GoalIsDir(w, p, path);
    var x, name := g.value.inum, BaseName(path);
    EntryInUse(w.s1, x, name);
    RemovedTree(w.s1, x, name);
  }

  lemma WriteNames(w: World, p: nat, fd: int, src: seq<byte>)
    requires Shape(w) && p < PROCS_MAX && Trees(w)
    ensures var v := Write(w, p, fd, src).0; SameNames(w, v) && SameSeats(w, v) && Trees(v) && Shape(v)
  {
    hide IsTree;
    var h := HandleAt(w, p, fd);
    if h.OnInode? && h.node.dev == 1 && ItemAt(w, h.node).File? && h.off <= |ItemAt(w, h.node).bytes| {
      FileTree(w.s1, h.node.inum, File(Overwrite(ItemAt(w, h.node).bytes, h.off, src)));
    }
  }

  lemma TruncateNames(w: World, p: nat, fd: int, length: int)
    requires Shape(w) && p < PROCS_MAX && Trees(w)
    ensures var v := Truncate(w, p, fd, length).0; SameNames(w, v) && SameSeats(w, v) && Trees(v) && Shape(v)
  {
    hide IsTree;
    var h := HandleAt(w, p, fd);
    if h.OnInode? && h.node.dev == 1 && ItemAt(w, h.node).File? && length >= 0 {
      var b := ItemAt(w, h.node).bytes;
      FileTree(w.s1, h.node.inum, File(CutTo(b, length)));
    }
  }

  lemma {:induction false} ClosedNames(w: World, q: nat, n: nat)
    requires Shape(w) && q < PROCS_MAX && n <= NOFILE
    ensures var v := ClosedAll(w, q, n); SameNames(w, v) && SameSeats(w, v) && v.s1 == w.s1
  {
    if n > 0 {
      ClosedNames(w, q, n - 1);
    }
  }

  /** Descriptors stay in range. */
  lemma SpawnShape(w: World, p: nat, program: string)
    requires Shape(w) && p < PROCS_MAX
    ensures Shape(Spawn(w, p, program).0)
  {
    hide Goal;
  }

  /** Every call keeps the trees, and device 0. */
  lemma StepTrees(w: World, p: nat, c: Call)
    requires Shape(w) && p < PROCS_MAX && Trees(w)
    ensures var v := Step(w, p, c).0; Shape(v) && Trees(v) && v.s0 == w.s0 && v.mount == w.mount
  {
    hide IsTree, Goal, Open, Create, Mkdir, Remove, Write, Truncate, ClosedAll, Tokens, BaseName, Spawn;
    match c
    case COpen(path, flags) =>
      OpenNames(w, p, path, flags);
      CreateNames(w, p, path, flags);
    case CWrite(fd, src) => WriteNames(w, p, fd, src);
    case CTruncate(fd, length) => TruncateNames(w, p, fd, length);
    case CMkdir(path) => MkdirNames(w, p, path);
    case CRemove(path) =>
      if !RemovesDots(w, p, path) {
        RemoveTrees(w, p, path);
      }
    case CReap(q) =>
      if q < PROCS_MAX {
        ClosedNames(w.(cwds := w.cwds[q := None]), q, NOFILE);
      }
    case CSpawn(line, memory) =>
      SpawnShape(w, p, FirstWord(line));
      SpawnNames(w, p, FirstWord(line));
    case CClose(_) =>
    case CRead(_, _, _) =>
    case CChdir(_) =>
  }

  lemma SpawnNames(w: World, p: nat, program: string)
    requires Shape(w) && p < PROCS_MAX
    ensures var v := Spawn(w, p, program).0; v.s0 == w.s0 && v.s1 == w.s1 && v.mount == w.mount
  {
  }

  lemma RemoveTrees(w: World, p: nat, path: string)
    requires Shape(w) && p < PROCS_MAX && Trees(w) && !RemovesDots(w, p, path)
    ensures var v := Remove(w, p, path).0; Shape(v) && Trees(v) && v.s0 == w.s0 && v.mount == w.mount
  {
    hide IsTree, Goal, Tokens, BaseName;
    GoalIsDir(w, p, path);
    if Remove(w, p, path).1 == Success {
      RemoveNames(w, p, path);
    }
  }

  // ----- who has what -----

  /** A process has a current directory; a process slot that is not in use has nothing. */
  ghost predicate Seated(w: World)
    requires Shape(w)
  {
    forall p :: 0 <= p < PROCS_MAX ==> SeatOk(w, p)
  }

  ghost predicate SeatOk(w: World, p: nat)
    requires Shape(w) && p < PROCS_MAX
  {
    && (w.procs[p] <==> w.cwds[p].Some?) && |w.paths[p]| <= BUF_CAP
    && (!w.procs[p] ==> forall i :: NOFILE * p <= i < NOFILE * p + NOFILE ==> w.fds[i] == None)
  }

  /** What holds between calls. */
  ghost predicate Good(w: World)
    ensures Good(w) ==> Shape(w)
  {
    Shape(w) && Trees(w) && Seated(w)
  }

  /** It does not depend on the open files. */
  lemma GoodFiles(w: World, v: World)
    requires Good(w) && v == w.(files := v.files) && |v.files| == NFILE
    ensures Good(v)
    ensures forall p, path, parent :: 0 <= p < PROCS_MAX ==> Goal(v, p, path, parent) == Goal(w, p, path, parent)
    ensures forall p, path :: 0 <= p < PROCS_MAX ==> Start(v, p, path) == Start(w, p, path)
  {
    hide IsTree;
    forall p | 0 <= p < PROCS_MAX
      ensures SeatOk(v, p)
    {
      assert SeatOk(w, p);
    }
  }

  /** The descriptors of processes other than `p` stay. */
  ghost predicate OnlyOf(w: World, v: World, p: nat)
    requires Shape(w) && Shape(v)
  {
    && SameSeats(w, v)
    && forall i :: 0 <= i < PROCS_MAX * NOFILE && !(NOFILE * p <= i < NOFILE * p + NOFILE) ==> v.fds[i] == w.fds[i]
  }

  lemma OnlyOfSeated(w: World, v: World, p: nat)
    requires Shape(w) && Shape(v) && Seated(w) && OnlyOf(w, v, p) && p < PROCS_MAX && w.procs[p]
    ensures Seated(v)
  {
    forall q | 0 <= q < PROCS_MAX
      ensures SeatOk(v, q)
    {
      assert SeatOk(w, q);
    }
  }

  lemma AttachOnly(w: World, p: nat, h: Handle)
    requires Shape(w) && p < PROCS_MAX
    ensures Shape(Attach(w, p, h).0) && OnlyOf(w, Attach(w, p, h).0, p)
  {
  }

  lemma OpenOnly(w: World, p: nat, path: string, flags: Flags)
    requires Shape(w) && p < PROCS_MAX
    ensures Shape(Open(w, p, path, flags).0) && OnlyOf(w, Open(w, p, path, flags).0, p)
  {
    hide Goal, Attach;
    var g := Goal(w, p, path, false);
    if path == "console" {
      AttachOnly(w, p, OnConsole(1, flags.read, flags.write));
    } else if g.Some? {
      var v := Emptied(w, g.value, flags);
      var off := if flags.append then SizeOf(ItemAt(v, g.value)) else 0;
      AttachOnly(v, p, OnInode(1, flags.read, flags.write, g.value, off));
    }
  }

  lemma CreateOnly(w: World, p: nat, path: string, flags: Flags)
    requires Shape(w) && p < PROCS_MAX
    ensures Shape(Create(w, p, path, flags).0) && OnlyOf(w, Create(w, p, path, flags).0, p)
  {
    hide Goal, Attach, BaseName, Added;
    var g := Goal(w, p, path, true);
    GoalIsDir(w, p, path);
    if Refusal(g).None? {
      var x, name := g.value.inum, BaseName(path);
      var found, made := name in w.s1[x].names, MakeIn(w, x, name, false);
      if found || made.Some? {
        var c := T.Node(1, if found then w.s1[x].names[name] else made.value.1);
        var v := if found then Emptied(w, c, flags) else made.value.0;
        var off := if flags.append then SizeOf(ItemAt(v, c)) else 0;
        AttachOnly(v, p, OnInode(1, flags.read, flags.write, c, off));
      }
    }
  }

  lemma MkdirOnly(w: World, p: nat, path: string)
    requires Shape(w) && p < PROCS_MAX
    ensures Shape(Mkdir(w, p, path).0) && OnlyOf(w, Mkdir(w, p, path).0, p)
  {
    hide Goal, BaseName, Added;
    GoalIsDir(w, p, path);
  }

  lemma RemoveOnly(w: World, p: nat, path: string)
    requires Shape(w) && p < PROCS_MAX
    ensures Shape(Remove(w, p, path).0) && OnlyOf(w, Remove(w, p, path).0, p)
  {
    hide Goal, BaseName, Removed;
    GoalIsDir(w, p, path);
  }

  lemma {:induction false} ClosedFds(w: World, q: nat, n: nat)
    requires Shape(w) && q < PROCS_MAX && n <= NOFILE
    ensures var v := ClosedAll(w, q, n);
            && SameSeats(w, v)
            && forall i :: 0 <= i < PROCS_MAX * NOFILE ==>
                 v.fds[i] == if NOFILE * q <= i < NOFILE * q + n then None else w.fds[i]
  {
    if n > 0 {
      ClosedFds(w, q, n - 1);
    }
  }

  lemma ReapSeated(w: World, q: nat)
    requires Shape(w) && q < PROCS_MAX && Seated(w)
    ensures Shape(Reap(w, q).0) && Seated(Reap(w, q).0)
  {
    hide ClosedAll;
    ClosedFds(w.(cwds := w.cwds[q := None]), q, NOFILE);
    var v := Reap(w, q).0;
    forall p | 0 <= p < PROCS_MAX
      ensures SeatOk(v, p)
    {
      assert SeatOk(w, p);
    }
  }

  lemma SpawnSeated(w: World, p: nat, program: string)
    requires Shape(w) && p < PROCS_MAX && Seated(w)
    ensures Shape(Spawn(w, p, program).0) && Seated(Spawn(w, p, program).0)
  {
    hide Goal, ThreeFree, ThreeOpened;
    SpawnShape(w, p, program);
    var v := Spawn(w, p, program).0;
    forall q | 0 <= q < PROCS_MAX
      ensures SeatOk(v, q)
    {
      assert SeatOk(w, q) && SeatOk(w, p);
    }
  }

  lemma ChdirSeated(w: World, p: nat, path: string)
    requires Shape(w) && p < PROCS_MAX && Seated(w) && w.procs[p]
    ensures Shape(Chdir(w, p, path).0) && Seated(Chdir(w, p, path).0)
  {
    hide Goal, TreeOf, Normalize;
    var v := Chdir(w, p, path).0;
    forall q | 0 <= q < PROCS_MAX
      ensures SeatOk(v, q)
    {
      assert SeatOk(w, q);
    }
  }

  /** What holds between calls holds after each call. */
  lemma StepGood(w: World, p: nat, c: Call)
    requires Good(w) && p < PROCS_MAX
    ensures Good(Step(w, p, c).0)
  {
    hide Trees, Goal, Seated, Open, Create, Mkdir, Remove, Write, Truncate, Reap, Spawn, Chdir, Tokens, BaseName;
    StepTrees(w, p, c);
    if w.procs[p] {
      match c
      case COpen(path, flags) =>
        OpenOnly(w, p, path, flags);
        CreateOnly(w, p, path, flags);
        OnlyOfSeated(w, Step(w, p, c).0, p);
      case CMkdir(path) =>
        MkdirOnly(w, p, path);
        OnlyOfSeated(w, Step(w, p, c).0, p);
      case CRemove(path) =>
        RemoveOnly(w, p, path);
        OnlyOfSeated(w, Step(w, p, c).0, p);
      case CChdir(path) => ChdirSeated(w, p, path);
      case CSpawn(line, memory) => SpawnSeated(w, p, FirstWord(line));
      case CReap(q) =>
        if q < PROCS_MAX {
          ReapSeated(w, q);
        }
      case CWrite(fd, src) =>
        FilesOnly(w, p, c);
      case CTruncate(fd, length) =>
        FilesOnly(w, p, c);
      case CRead(fd, n, typed) =>
        FilesOnly(w, p, c);
      case CClose(fd) =>
        FilesOnly(w, p, c);
    }
  }

  lemma FilesOnly(w: World, p: nat, c: Call)
    requires Shape(w) && p < PROCS_MAX && Seated(w) && w.procs[p]
    requires c.CWrite? || c.CTruncate? || c.CRead? || c.CClose?
    ensures Shape(Step(w, p, c).0) && Seated(Step(w, p, c).0)
  {
    hide Seated;
    assert OnlyOf(w, Step(w, p, c).0, p);
    OnlyOfSeated(w, Step(w, p, c).0, p);
  }

  /** A successful `rm` keeps what holds between calls exactly if the name was an ordinary one. */
  lemma RemoveGoodIff(w: World, p: nat, path: string)
    requires Good(w) && p < PROCS_MAX && w.procs[p] && Remove(w, p, path).1 == Success
    ensures Tokens(path) != []
    ensures Good(Remove(w, p, path).0) <==> !IsDots(BaseName(path))
  {
    hide Goal, BaseName, IsTree, Seated, Removed, IsEmptyDir;
    GoalIsDir(w, p, path);
    RemoveOnly(w, p, path);
    var v, x, name := Remove(w, p, path).0, Goal(w, p, path, true).value.inum, BaseName(path);
    OnlyOfSeated(w, v, p);
    EntryInUse(w.s1, x, name);
    RemoveIff(w.s1, x, name);
  }

  // ----- the paths of the current directories -----

  /** The path of process `p` leads to its current directory. */
  ghost predicate AgreesAt(w: World, p: nat)
    requires Shape(w) && p < PROCS_MAX
  {
    w.cwds[p].Some? && T.Agrees(TreeOf(w), T.Cwd(w.cwds[p].value, w.paths[p]))
  }

  ghost predicate AllAgree(w: World)
    requires Shape(w)
  {
    forall p {:trigger AgreesAt(w, p)} :: 0 <= p < PROCS_MAX && w.procs[p] ==> AgreesAt(w, p)
  }

  /** The current directory of some process. */
  ghost predicate IsSeat(w: World, x: T.Node)
    requires Shape(w)
  {
    exists p :: 0 <= p < PROCS_MAX && w.procs[p] && w.cwds[p] == Some(x)
  }

  lemma SameAgree(w: World, v: World)
    requires Shape(w) && Shape(v) && AllAgree(w) && SameSeats(w, v) && TreeOf(v) == TreeOf(w)
    ensures AllAgree(v)
  {
    hide TreeOf, T.Agrees;
    forall p | 0 <= p < PROCS_MAX && v.procs[p]
      ensures AgreesAt(v, p)
    {
      assert AgreesAt(w, p);
    }
  }

  lemma TreeIsTree(w: World)
    requires Trees(w)
    ensures T.IsTree(TreeOf(w))
  {
    M.IsTreeJoined(w.s0, w.s1, w.mount);
  }

  lemma GrewAgree(w: World, v: World)
    requires Shape(w) && Shape(v) && Trees(w) && AllAgree(w) && SameSeats(w, v) && Grew(w, v)
    ensures AllAgree(v)
  {
    hide IsTree, M.Joined, T.Walk, Tokens, T.IsTree;
    var x, n, c, item :| CanAdd(w.s1, x, n, c, item) && v.s1 == Added(w.s1, x, n, c, item);
    M.AddedGrows(w.s0, w.s1, w.mount, x, n, c, item);
    TreeIsTree(w);
    forall p | 0 <= p < PROCS_MAX && v.procs[p]
      ensures AgreesAt(v, p)
    {
      assert AgreesAt(w, p);
      T.WalkGrows(TreeOf(w), TreeOf(v), T.Root, Tokens(w.paths[p]));
    }
  }

  /** A removal disturbs exactly those who are in what is removed. */
  lemma LossAgree(w: World, v: World, x: nat, n: string)
    requires Shape(w) && Shape(v) && Trees(w) && AllAgree(w) && SameSeats(w, v) && CanRemove(w.s1, x, n)
    requires v == w.(s1 := Removed(w.s1, x, n))
    ensures AllAgree(v) <==> !IsSeat(w, T.Node(1, w.s1[x].names[n]))
  {
    hide IsTree, M.Joined, T.Walk, Tokens, T.IsTree;
    var c := T.Node(1, w.s1[x].names[n]);
    M.RemovedShrinks(w.s0, w.s1, w.mount, x, n);
    var t, u := TreeOf(w), TreeOf(v);
    assert T.Shrinks(t, u, T.Node(1, x), n) &&
           t.dirs[T.Node(1, x)][n] == c.inum by { M.JoinedIs(w.s0, w.s1, w.mount, T.Node(1, x)); }
    if !IsSeat(w, c) {
      forall p | 0 <= p < PROCS_MAX && v.procs[p]
        ensures AgreesAt(v, p)
      {
        assert AgreesAt(w, p) && w.cwds[p] != Some(c);
        assert T.AllProper(Tokens(w.paths[p]));
        T.WalkShrinks(t, u, T.Node(1, x), n, T.Root, Tokens(w.paths[p]));
      }
    } else {
      var p :| 0 <= p < PROCS_MAX && w.procs[p] && w.cwds[p] == Some(c);
      assert !AgreesAt(v, p);
    }
  }

  /** What a call must not do for the paths to stay right. */
  ghost predicate Spares(w: World, p: nat, c: Call)
    requires Shape(w) && p < PROCS_MAX
  {
    match c
    case CChdir(path) => WithinCaps(w.paths[p], path)
    case CRemove(path) =>
      forall x: nat, n :: Loses(w, p, path, x, n) ==> !IsSeat(w, T.Node(1, w.s1[x].names[n]))
    case _ => true
  }

  lemma ChdirAgree(w: World, p: nat, path: string)
    requires Shape(w) && p < PROCS_MAX && Trees(w) && AllAgree(w) && w.procs[p] && WithinCaps(w.paths[p], path)
    ensures AllAgree(Chdir(w, p, path).0)
  {
    hide IsTree, M.Joined, T.Walk, Tokens, T.IsTree, WithinCaps, Normalize, Cut, IsStack;
    TreeIsTree(w);
    assert AgreesAt(w, p);
    var t, here := TreeOf(w), T.Cwd(w.cwds[p].value, w.paths[p]);
    assert T.Target(t, Start(w, p, path), Tokens(path), false) == T.Resolve(t, here.node, path);
    T.ChdirAgrees(t, here, path);
    var v := Chdir(w, p, path).0;
    assert TreeOf(v) == t;
    forall q | 0 <= q < PROCS_MAX && v.procs[q]
      ensures AgreesAt(v, q)
    {
      assert AgreesAt(w, q);
    }
  }

  /** A new process has its parent's path and directory. */
  lemma SpawnAgree(w: World, p: nat, program: string)
    requires Shape(w) && p < PROCS_MAX && AllAgree(w) && w.procs[p]
    ensures Shape(Spawn(w, p, program).0) && AllAgree(Spawn(w, p, program).0)
  {
    hide Goal, T.Agrees, M.Joined, ThreeOpened, ThreeGiven, ThreeFree;
    SpawnShape(w, p, program);
    SpawnNames(w, p, program);
    assert AgreesAt(w, p);
    var v := Spawn(w, p, program).0;
    assert TreeOf(v) == TreeOf(w);
    forall q | 0 <= q < PROCS_MAX && v.procs[q]
      ensures AgreesAt(v, q)
    {
      assert w.procs[q] ==> AgreesAt(w, q);
    }
  }

  lemma ReapAgree(w: World, q: nat)
    requires Shape(w) && q < PROCS_MAX && AllAgree(w)
    ensures Shape(Reap(w, q).0) && AllAgree(Reap(w, q).0)
  {
    hide ClosedAll, T.Agrees, M.Joined;
    ClosedNames(w.(cwds := w.cwds[q := None]), q, NOFILE);
    var v := Reap(w, q).0;
    assert TreeOf(v) == TreeOf(w);
    forall r | 0 <= r < PROCS_MAX && v.procs[r]
      ensures AgreesAt(v, r)
    {
      assert AgreesAt(w, r);
    }
  }

  /** Every other call keeps the processes where they are, and changes the names at most by adding one. */
  lemma MovesNobody(w: World, p: nat, c: Call)
    requires Shape(w) && p < PROCS_MAX && Trees(w) && !c.CChdir? && !c.CRemove? && !c.CSpawn? && !c.CReap?
    ensures var v := Step(w, p, c).0; SameSeats(w, v) && (SameNames(w, v) || Grew(w, v))
  {
    hide IsTree, Goal, Open, Create, Mkdir, Write, Truncate, Grew;
    match c
    case COpen(path, flags) =>
      OpenNames(w, p, path, flags);
      CreateNames(w, p, path, flags);
    case CWrite(fd, src) => WriteNames(w, p, fd, src);
    case CTruncate(fd, length) => TruncateNames(w, p, fd, length);
    case CMkdir(path) => MkdirNames(w, p, path);
    case CClose(_) =>
    case CRead(_, _, _) =>
  }

  /** The paths stay right over every call that spares them. */
  lemma StepAgree(w: World, p: nat, c: Call)
    requires Shape(w) && p < PROCS_MAX && Trees(w) && AllAgree(w) && Spares(w, p, c)
    ensures Shape(Step(w, p, c).0) && AllAgree(Step(w, p, c).0)
  {
    hide IsTree, Goal, AllAgree, Open, Create, Mkdir, Remove, Write, Truncate, Reap, Spawn, Chdir, TreeOf, BaseName,
         Tokens;
    var v := Step(w, p, c).0;
    StepTrees(w, p, c);
    if w.procs[p] {
      match c
      case CChdir(path) => ChdirAgree(w, p, path);
      case CRemove(path) => RemoveAgree(w, p, path);
      case CSpawn(line, memory) => SpawnAgree(w, p, FirstWord(line));
      case CReap(q) =>
        if q < PROCS_MAX {
          ReapAgree(w, q);
        }
      case _ =>
        MovesNobody(w, p, c);
        if SameNames(w, v) {
          SameTree(w, v);
          SameAgree(w, v);
        } else {
          GrewAgree(w, v);
        }
    }
  }

  lemma RemoveAgree(w: World, p: nat, path: string)
    requires Shape(w) && p < PROCS_MAX && Trees(w) && AllAgree(w) && w.procs[p] && Spares(w, p, CRemove(path))
    ensures Shape(Step(w, p, CRemove(path)).0) && AllAgree(Step(w, p, CRemove(path)).0)
  {
    hide IsTree, Goal, AllAgree, TreeOf, BaseName, Tokens;
    StepTrees(w, p, CRemove(path));
    GoalIsDir(w, p, path);
    if Step(w, p, CRemove(path)).1 == Success {
      RemoveNames(w, p, path);
      var x := Goal(w, p, path, true).value.inum;
      LossAgree(w, Step(w, p, CRemove(path)).0, x, BaseName(path));
    }
  }

  // ----- runs -----

  /**
   The calls of a run, each with the process that makes it. Over any run device 0 stays as it was, both devices
   hold trees, and a process slot that is not in use has nothing.
   */
  ghost function Replay(w: World, calls: seq<(nat, Call)>): (r: (World, seq<Ret>))
    requires Good(w) && forall c <- calls :: c.0 < PROCS_MAX
    ensures Good(r.0) && r.0.s0 == w.s0 && r.0.mount == w.mount && |r.1| == |calls|
    decreases |calls|
  {
    if calls == [] then (w, [])
    else
      var last := calls[|calls| - 1];
      var (v, rs) := Replay(w, calls[..|calls| - 1]);
      StepTrees(v, last.0, last.1);
      StepGood(v, last.0, last.1);
      var (u, r) := Step(v, last.0, last.1);
      (u, rs + [r])
  }

  ghost predicate AllSpare(w: World, calls: seq<(nat, Call)>)
    requires Good(w) && forall c <- calls :: c.0 < PROCS_MAX
    decreases |calls|
  {
    calls != [] ==>
      var init, last := calls[..|calls| - 1], calls[|calls| - 1];
      AllSpare(w, init) && Spares(Replay(w, init).0, last.0, last.1)
  }

  /** Over any run of such calls, by any processes, every path keeps leading to its current directory. */
  lemma {:induction false} ReplayAgree(w: World, calls: seq<(nat, Call)>)
    requires Good(w) && (forall c <- calls :: c.0 < PROCS_MAX) && AllAgree(w) && AllSpare(w, calls)
    ensures AllAgree(Replay(w, calls).0)
    decreases |calls|
  {
    hide Trees, Step, AllAgree, Spares, Shape;
    if calls != [] {
      var init, last := calls[..|calls| - 1], calls[|calls| - 1];
      ReplayAgree(w, init);
      StepAgree(Replay(w, init).0, last.0, last.1);
    }
  }

  // ----- what is written is what is read -----

  /** What a `write` put at the offset of a file, a `read` from there returns. */
  lemma WriteThenRead(w: World, p: nat, fd: int, src: seq<byte>)
    requires Shape(w) && p < PROCS_MAX && Write(w, p, fd, src).1.Count? && HandleAt(w, p, fd).OnInode?
    requires var h := HandleAt(w, p, fd); h.readable && h.node.dev == 1 && ItemAt(w, h.node).File?
    ensures Shape(Write(w, p, fd, src).0)
    ensures Read(Seek(Write(w, p, fd, src).0, p, fd, HandleAt(w, p, fd).off), p, fd, |src|, []).1 == Data(src)
  {
    var h := HandleAt(w, p, fd);
    var b := ItemAt(w, h.node).bytes;
    assert Overwrite(b, h.off, src)[h.off..h.off + |src|] == src;
  }
}
