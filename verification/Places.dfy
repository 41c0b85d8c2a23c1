/**
 What a program can rely on when it walks, changes its directory, makes and removes names, and starts and ends
 processes. As in `Descriptors`, the calls are described by what they answer and by where later walks lead.
 */
module Places {
  import opened Basics
  import opened Paths
  import opened Items
  import opened World
  import opened Descriptors
  import R = Replay
  import M = Mounts
  import T = Tree

  // ----- walks -----

  ghost predicate IsDirAt(w: World, x: T.Node) { x.dev < 2 && ItemAt(w, x).Dir? }

  /** Whoever enters the directory that device 1 is mounted on is at the root of device 1. */
  function Entered(w: World, x: T.Node): T.Node { if x == T.Node(0, w.mount) then T.Node(1, 1) else x }

  /**
   The name `n` in directory `x` leads to `y`; ".." in the root of device 1 is that of the directory it is mounted on.
   */
  ghost predicate Leads(w: World, x: T.Node, n: string, y: T.Node) {
    && IsDirAt(w, x)
    && var from := if n == ".." && x == T.Node(1, 1) then T.Node(0, w.mount) else x;
       && IsDirAt(w, from) && n in ItemAt(w, from).names
       && y == Entered(w, T.Node(from.dev, ItemAt(w, from).names[n]))
  }

  /** `xs` are the inodes that the components of a path lead through; of a component 29 characters count. */
  ghost predicate IsTrail(w: World, xs: seq<T.Node>, ts: seq<string>) {
    |xs| == |ts| + 1 && forall i :: 0 <= i < |ts| ==> Leads(w, xs[i], Cut(ts[i], 29), xs[i + 1])
  }

  lemma StepLeads(w: World, x: T.Node, comp: string, y: T.Node)
    requires R.Trees(w)
    ensures T.Step(TreeOf(w), x, comp) == Some(y) <==> Leads(w, x, Cut(comp, 29), y)
  {
    hide M.Joined, IsTree;
    M.JoinedIs(w.s0, w.s1, w.mount, x);
    M.JoinedIs(w.s0, w.s1, w.mount, T.Node(0, w.mount));
    M.DotsAt(w.s0, w.mount);
  }

  lemma {:induction false} WalkTrail(w: World, x: T.Node, ts: seq<string>) returns (xs: seq<T.Node>)
    requires R.Trees(w) && T.Walk(TreeOf(w), x, ts).Some?
    ensures IsTrail(w, xs, ts) && xs[0] == x && Some(xs[|ts|]) == T.Walk(TreeOf(w), x, ts)
    decreases |ts|
  {
    hide Leads, TreeOf, R.Trees;
    if ts == [] {
      xs := [x];
    } else {
      var y := T.Step(TreeOf(w), x, ts[0]).value;
      StepLeads(w, x, ts[0], y);
      var rest := WalkTrail(w, y, ts[1..]);
      xs := [x] + rest;
      forall i | 0 <= i < |ts|
        ensures Leads(w, xs[i], Cut(ts[i], 29), xs[i + 1])
      {
        if i > 0 {
          assert Leads(w, rest[i - 1], Cut(ts[1..][i - 1], 29), rest[i]);
        }
      }
    }
  }

  lemma {:induction false} TrailWalks(w: World, xs: seq<T.Node>, ts: seq<string>)
    requires R.Trees(w) && IsTrail(w, xs, ts)
    ensures T.Walk(TreeOf(w), xs[0], ts) == Some(xs[|ts|])
    decreases |ts|
  {
    hide Leads, TreeOf, R.Trees;
    if ts != [] {
      assert Leads(w, xs[0], Cut(ts[0], 29), xs[1]);
      StepLeads(w, xs[0], ts[0], xs[1]);
      forall i | 0 <= i < |ts[1..]|
        ensures Leads(w, xs[1..][i], Cut(ts[1..][i], 29), xs[1..][i + 1])
      {
        assert Leads(w, xs[i + 1], Cut(ts[i + 1], 29), xs[i + 2]);
      }
      TrailWalks(w, xs[1..], ts[1..]);
    }
  }

  /** There is a trail of these components from `x` to `y`. */
  ghost predicate Reaches(w: World, x: T.Node, ts: seq<string>, y: T.Node) {
    exists xs :: IsTrail(w, xs, ts) && xs[0] == x && xs[|ts|] == y
  }

  lemma WalkReaches(w: World, x: T.Node, ts: seq<string>, y: T.Node)
    requires R.Trees(w)
    ensures T.Walk(TreeOf(w), x, ts) == Some(y) <==> Reaches(w, x, ts, y)
  {
    hide R.Trees, TreeOf, Leads;
    if T.Walk(TreeOf(w), x, ts) == Some(y) {
      var xs := WalkTrail(w, x, ts);
    }
    if Reaches(w, x, ts, y) {
      var xs :| IsTrail(w, xs, ts) && xs[0] == x && xs[|ts|] == y;
      TrailWalks(w, xs, ts);
    }
  }

  /**
   A path leads where the trail of its components ends, from the root if it is absolute and from the current directory
   otherwise. To make or remove a name, the trail of all but the last component has to end in a directory.
   */
  lemma GoalIs(w: World, p: nat, path: string, y: T.Node)
    requires R.Good(w) && p < PROCS_MAX && w.procs[p]
    ensures w.cwds[p].Some?
    ensures var x := if path != "" && path[0] == '/' then T.Node(0, 1) else w.cwds[p].value;
            && (Goal(w, p, path, false) == Some(y) <==> Reaches(w, x, Tokens(path), y))
            && (Goal(w, p, path, true) == Some(y) <==>
                  Tokens(path) != [] && IsDirAt(w, y) && Reaches(w, x, Tokens(path)[..|Tokens(path)| - 1], y))
  {
    hide R.Trees, M.Joined, Tokens, Reaches;
    assert R.SeatOk(w, p);
    var x, ts := Start(w, p, path), Tokens(path);
    WalkReaches(w, x, ts, y);
    if ts != [] {
      WalkReaches(w, x, ts[..|ts| - 1], y);
    }
    M.JoinedIs(w.s0, w.s1, w.mount, y);
  }

  /** What the components of a path are; there is no other path than such. */
  lemma TokensAre(a: string, b: string)
    ensures Tokens("") == [] && (IsName(a) ==> Tokens(a) == [a]) && Tokens(a + "/" + b) == Tokens(a) + Tokens(b)
  {
    ScanJoin(a, b, "");
    if IsName(a) {
      ScanWord(a, "", "");
      assert a + "" == a && "" + a == a;
    }
  }

  // ----- chdir -----

  /**
   `chdir` succeeds exactly if the path leads to a directory. Then the process is there: the empty path leads there, and
   every other relative path leads where it led from there. No other process is moved, and nothing else changes.
   */
  lemma ChdirMoves(w: World, p: nat, path: string)
    requires R.Good(w) && p < PROCS_MAX && w.procs[p] && (IsAbsolute(path) || |w.paths[p]| < BUF_CAP)
    ensures var (v, r) := Step(w, p, CChdir(path));
            var g := Goal(w, p, path, false);
            && (r == Success <==> g.Some? && IsDirAt(w, g.value))
            && (r == Fail(NotFound) <==> g.None?)
            && (r == Fail(NotADirectory) <==> g.Some? && !IsDirAt(w, g.value))
            && (r != Success ==> v == w)
            && Shape(v) && v == w.(cwds := v.cwds, paths := v.paths)
            && (forall q :: 0 <= q < PROCS_MAX && q != p ==> v.cwds[q] == w.cwds[q] && v.paths[q] == w.paths[q])
            && (r == Success ==>
                  && Goal(v, p, "", false) == g
                  && forall rel, parent :: !IsAbsolute(rel) ==>
                       Goal(v, p, rel, parent) == T.Target(TreeOf(w), g.value, Tokens(rel), parent))
  {
    hide R.Trees, R.Seated, M.Joined, T.Target, Normalize;
    var v, g := Step(w, p, CChdir(path)).0, Goal(w, p, path, false);
    if g.Some? {
      M.JoinedIs(w.s0, w.s1, w.mount, g.value);
      R.SameTree(w, v);
      TokensAre("", "");
      T.TargetNone(TreeOf(w), g.value, false);
    }
  }

  /** So walking on from there is walking the longer path from here. */
  lemma ChdirThen(w: World, p: nat, path: string, rel: string, parent: bool)
    requires R.Good(w) && p < PROCS_MAX && w.procs[p] && Step(w, p, CChdir(path)).1 == Success
    requires path != "" && !IsAbsolute(rel) && (parent ==> Tokens(rel) != [])
    ensures Goal(Step(w, p, CChdir(path)).0, p, rel, parent) == Goal(w, p, path + "/" + rel, parent)
  {
    hide R.Trees, R.Seated, TreeOf, Tokens, Step, T.Walk;
    ChdirMoves(w, p, path) by { ChdirMade(w, p, path); }
    TokensAre(path, rel);
    var t, x, a, b := TreeOf(w), Start(w, p, path), Tokens(path), Tokens(rel);
    assert Start(w, p, path + "/" + rel) == x;
    T.WalkConcat(t, x, a, b);
    if parent {
      assert (a + b)[..|a + b| - 1] == a + b[..|b| - 1];
      T.WalkConcat(t, x, a, b[..|b| - 1]);
    }
  }

  lemma ChdirMade(w: World, p: nat, path: string)
    requires Shape(w) && p < PROCS_MAX && w.procs[p] && Step(w, p, CChdir(path)).1 == Success
    ensures IsAbsolute(path) || |w.paths[p]| < BUF_CAP
  {
  }

  /** Within the limits the new text leads there too, whoever walks it. */
  lemma ChdirText(w: World, p: nat, path: string, q: nat)
    requires R.Good(w) && R.AllAgree(w) && p < PROCS_MAX && w.procs[p] && q < PROCS_MAX && WithinCaps(w.paths[p], path)
    requires Step(w, p, CChdir(path)).1 == Success
    ensures Shape(Step(w, p, CChdir(path)).0)
    ensures var v := Step(w, p, CChdir(path)).0;
            IsAbsolute(v.paths[p]) && Goal(v, q, v.paths[p], false) == Goal(w, p, path, false)
  {
    hide R.Trees, R.Seated, TreeOf, Tokens, Step, T.Walk, WithinCaps;
    ChdirMoves(w, p, path) by { ChdirMade(w, p, path); }
    R.StepAgree(w, p, CChdir(path));
    var v := Step(w, p, CChdir(path)).0;
    assert R.AgreesAt(v, p);
    ChdirSeat(w, p, path);
  }

  lemma ChdirSeat(w: World, p: nat, path: string)
    requires Shape(w) && p < PROCS_MAX && w.procs[p] && Step(w, p, CChdir(path)).1 == Success
    ensures Shape(Step(w, p, CChdir(path)).0) && Step(w, p, CChdir(path)).0.cwds[p] == Goal(w, p, path, false)
  {
    hide Goal, TreeOf, Normalize;
  }

  // ----- names -----

  /** The parent directory of a path is directory `x` of device 1, and `n` is the name that the path has there. */
  ghost predicate IsPlace(w: World, p: nat, path: string, x: nat, n: string)
    requires Shape(w) && p < PROCS_MAX
  {
    && Goal(w, p, path, true) == Some(T.Node(1, x)) && x < |w.s1| && w.s1[x].Dir?
    && Tokens(path) != [] && n == Cut(Tokens(path)[|Tokens(path)| - 1], 29)
  }

  lemma PlaceIs(w: World, p: nat, path: string)
    requires Shape(w) && p < PROCS_MAX
    ensures Goal(w, p, path, true).Some? && Goal(w, p, path, true).value.dev != 0 ==>
              Tokens(path) != [] && IsPlace(w, p, path, Goal(w, p, path, true).value.inum, BaseName(path))
  {
    hide Goal, Tokens;
    GoalIsDir(w, p, path);
  }

  /** Neither `create` nor `mkdir` nor `rm` does anything without a parent directory on device 1, and they say why. */
  lemma PlaceRefused(w: World, p: nat, path: string)
    requires Shape(w) && p < PROCS_MAX && w.procs[p] && forall x, n :: !IsPlace(w, p, path, x, n)
    ensures var g := Goal(w, p, path, true);
            && (g.None? || g.value.dev == 0)
            && Step(w, p, CMkdir(path)) == (w, Fail(if g.None? then NotFound else Denied))
            && Step(w, p, CRemove(path)) == (w, Fail(if g.None? then NotFound else Denied))
  {
    hide Goal, Tokens;
    PlaceIs(w, p, path);
  }

  /** A walk to a name in a directory of device 1, other than ".." in the root, is a look at the directory. */
  lemma LastStep(w: World, p: nat, path: string, x: nat, n: string)
    requires Shape(w) && p < PROCS_MAX && IsPlace(w, p, path, x, n) && !(n == ".." && x == 1)
    ensures Goal(w, p, path, false) == if n in w.s1[x].names then Some(T.Node(1, w.s1[x].names[n])) else None
  {
    hide Tokens, M.Joined;
    var t, ts, y := TreeOf(w), Tokens(path), Start(w, p, path);
    var init, last := ts[..|ts| - 1], ts[|ts| - 1];
    assert ts == init + [last];
    T.WalkConcat(t, y, init, [last]);
    T.WalkOne(t, T.Node(1, x), last);
    M.JoinedIs(w.s0, w.s1, w.mount, T.Node(1, x));
  }

  /** `mkdir` succeeds exactly if the name is new and an inode is unused. */
  lemma MkdirAnswers(w: World, p: nat, path: string, x: nat, n: string)
    requires Shape(w) && p < PROCS_MAX && w.procs[p] && IsPlace(w, p, path, x, n)
    ensures var (v, r) := Step(w, p, CMkdir(path));
            && (r == Fail(AlreadyExists) <==> n in w.s1[x].names)
            && (r == Success <==> n !in w.s1[x].names && !AllUsed(w))
            && (r == (if w.overruns then Beyond else Fail(NoSpace)) <==> n !in w.s1[x].names && AllUsed(w))
            && (r != Success ==> v == w)
  {
    hide Goal, Tokens, Added;
    GoalIsDir(w, p, path);
    if FirstUnused(w.s1, 1).Some? {
      assert w.s1[FirstUnused(w.s1, 1).value].Unused?;
    }
  }

  /** Then the path leads to a new directory that holds nothing but its dots, and nothing else changes. */
  lemma MkdirMakes(w: World, p: nat, path: string, x: nat, n: string)
    requires R.Good(w) && p < PROCS_MAX && w.procs[p] && IsPlace(w, p, path, x, n)
    requires Step(w, p, CMkdir(path)).1 == Success
    ensures var v := Step(w, p, CMkdir(path)).0;
            && Shape(v) && v == w.(s1 := v.s1) && |v.s1| == |w.s1|
            && exists c :: 1 < c < |w.s1| && c != x && Goal(v, p, path, false) == Some(T.Node(1, c))
                 && w.s1[c].Unused? && (forall i :: 1 <= i < c ==> !w.s1[i].Unused?)
                 && v.s1[c].Dir? && v.s1[c].names == map["." := c, ".." := x]
                 && v.s1[x].Dir? && v.s1[x].names == w.s1[x].names[n := c]
                 && forall i :: 0 <= i < |w.s1| && i != c && i != x ==> v.s1[i] == w.s1[i]
  {
    hide Goal, Tokens, IsTree, R.Seated;
    GoalIsDir(w, p, path);
    MkdirAnswers(w, p, path, x, n);
    var c := FirstUnused(w.s1, 1).value;
    assert w.s1[c].Unused?;
    M.RootIs(w.s1);
    var v := Step(w, p, CMkdir(path)).0;
    assert v.s1 == Added(w.s1, x, n, c, Dots(c, x));
    assert CanAdd(w.s1, x, n, c, Dots(c, x));
    PlaceStays(w, v, p, path, x, n, c, Dots(c, x));
  }

  /** A place is where it was when something was added there, and the path leads to what was added. */
  lemma PlaceStays(w: World, v: World, p: nat, path: string, x: nat, n: string, c: nat, item: Item)
    requires R.Good(w) && Shape(v) && p < PROCS_MAX && IsPlace(w, p, path, x, n) && CanAdd(w.s1, x, n, c, item)
    requires v.s0 == w.s0 && v.mount == w.mount && v.cwds == w.cwds && v.s1 == Added(w.s1, x, n, c, item)
    ensures IsPlace(v, p, path, x, n) && Goal(v, p, path, false) == Some(T.Node(1, c))
  {
    hide Tokens, M.Joined, IsTree, R.Seated, T.IsTree;
    M.AddedGrows(w.s0, w.s1, w.mount, x, n, c, item);
    R.TreeIsTree(w);
    var t, u, ts, y := TreeOf(w), TreeOf(v), Tokens(path), Start(w, p, path);
    T.WalkGrows(t, u, y, ts[..|ts| - 1]);
    M.JoinedIs(v.s0, v.s1, v.mount, T.Node(1, x));
    M.DotsAt(w.s1, x);
    LastStep(v, p, path, x, n);
  }

  /** The file that was created is where the path leads. */
  lemma CreateMakes(w: World, p: nat, path: string, flags: Flags, x: nat, n: string)
    requires R.Good(w) && Tidy(w) && p < PROCS_MAX && w.procs[p] && flags.create && IsPlace(w, p, path, x, n)
    requires n !in w.s1[x].names && Step(w, p, COpen(path, flags)).1.Fd?
    ensures var (v, r) := Step(w, p, COpen(path, flags));
            && Shape(v) && HandleAt(v, p, r.fd).OnInode?
            && Goal(v, p, path, false) == Some(HandleAt(v, p, r.fd).node)
            && ItemAt(v, HandleAt(v, p, r.fd).node) == Item.File([])
  {
    hide Goal, Tokens, IsTree, R.Seated, Tidy, HasRoom, SameHandles;
    CreateNew(w, p, path, flags, x);
    var (v, r) := Step(w, p, COpen(path, flags));
    GoalIsDir(w, p, path);
    var c := FirstUnused(w.s1, 1).value;
    assert w.s1[c].Unused?;
    M.RootIs(w.s1);
    assert CanAdd(w.s1, x, n, c, Item.File([]));
    CreatedAt(w, p, path, flags, x, n, c);
    PlaceStays(w, v, p, path, x, n, c, Item.File([]));
  }

  lemma CreatedAt(w: World, p: nat, path: string, flags: Flags, x: nat, n: string, c: nat)
    requires Shape(w) && p < PROCS_MAX && w.procs[p] && flags.create && IsPlace(w, p, path, x, n)
    requires n !in w.s1[x].names && FirstUnused(w.s1, 1) == Some(c) && Step(w, p, COpen(path, flags)).1.Fd? && c != x
    ensures var (v, r) := Step(w, p, COpen(path, flags));
            && Shape(v) && v.s0 == w.s0 && v.mount == w.mount && v.cwds == w.cwds
            && v.s1 == Added(w.s1, x, n, c, Item.File([]))
            && HandleAt(v, p, r.fd).OnInode? && HandleAt(v, p, r.fd).node == T.Node(1, c)
  {
    hide Goal, Tokens, Added;
    GoalIsDir(w, p, path);
  }

  lemma {:induction false} NotOwnParent(s: seq<Item>, x: nat, k: nat)
    requires Climbs(s, x, k) && 1 < x < |s| && s[x].Dir? && ".." in s[x].names
    ensures s[x].names[".."] != x
    decreases k
  {
    if s[x].names[".."] == x {
      NotOwnParent(s, x, k - 1);
    }
  }

  /**
   `open` with creation looks for the name in the directory alone: it opens what the path leads to, unless the path
   leads out of the root of device 1.
   */
  lemma CreateOpensGoal(w: World, p: nat, path: string, flags: Flags, x: nat, n: string)
    requires R.Good(w) && Tidy(w) && p < PROCS_MAX && w.procs[p] && flags.create && IsPlace(w, p, path, x, n)
    requires n in w.s1[x].names && Step(w, p, COpen(path, flags)).1.Fd?
    ensures var (v, r) := Step(w, p, COpen(path, flags));
            && Shape(v) && HandleAt(v, p, r.fd).OnInode?
            && (Goal(w, p, path, false) == Some(HandleAt(v, p, r.fd).node) <==> !(n == ".." && x == 1))
  {
    hide Goal, Tokens, R.Trees, R.Seated, Tidy, HasRoom, Step, NewDescriptor;
    CreateOld(w, p, path, flags, x);
    if n == ".." && x == 1 {
      LeavesRoot(w, p, path);
    } else {
      LastStep(w, p, path, x, n);
    }
  }

  lemma LeavesRoot(w: World, p: nat, path: string)
    requires R.Good(w) && p < PROCS_MAX && IsPlace(w, p, path, 1, "..")
    ensures Goal(w, p, path, false).Some? && Goal(w, p, path, false).value.dev == 0
  {
    hide Tokens, M.Joined, IsTree, R.Seated;
    var t, ts, y := TreeOf(w), Tokens(path), Start(w, p, path);
    var init, last := ts[..|ts| - 1], ts[|ts| - 1];
    assert ts == init + [last];
    T.WalkConcat(t, y, init, [last]);
    T.WalkOne(t, T.ChildRoot, last);
    M.JoinedIs(w.s0, w.s1, w.mount, T.ChildRoot);
    M.JoinedIs(w.s0, w.s1, w.mount, T.Node(0, w.mount));
    M.DotsAt(w.s0, w.mount);
    assert IsRooted(w.s0, w.mount) by { RootedAt(w.s0, w.mount); }
    var k: nat :| Climbs(w.s0, w.mount, k);
    NotOwnParent(w.s0, w.mount, k);
  }

  lemma RootedAt(s: seq<Item>, x: nat)
    requires IsTree(s) && x < |s| && s[x].Dir?
    ensures IsRooted(s, x)
  {
  }

  // ----- removing -----

  /** A directory with a name besides its dots. */
  ghost predicate HasNames(i: Item) { i.Dir? && exists k <- i.names :: k != "." && k != ".." }

  /**
   `rm` succeeds exactly if the name is there and leads to a file or to a directory with only its dots. Of a dot, that
   is where the tree is destroyed.
   */
  lemma RemoveAnswers(w: World, p: nat, path: string, x: nat, n: string)
    requires R.Good(w) && p < PROCS_MAX && w.procs[p] && IsPlace(w, p, path, x, n)
    ensures n in w.s1[x].names ==> w.s1[x].names[n] < |w.s1|
    ensures var (v, r) := Step(w, p, CRemove(path));
            && (r == Fail(NotFound) <==> n !in w.s1[x].names)
            && (r == Fail(DirectoryNotEmpty) <==> n in w.s1[x].names && HasNames(w.s1[w.s1[x].names[n]]))
            && (r == Success <==> n in w.s1[x].names && !HasNames(w.s1[w.s1[x].names[n]]) && n != "." && n != "..")
            && (r == Untold <==> n in w.s1[x].names && !HasNames(w.s1[w.s1[x].names[n]]) && (n == "." || n == ".."))
            && (r != Success ==> v == w)
  {
    hide Goal, Tokens, IsTree, R.Seated, Removed;
    GoalIsDir(w, p, path);
    if n in w.s1[x].names {
      EntryInUse(w.s1, x, n);
      var i := w.s1[w.s1[x].names[n]];
      assert i.Dir? ==> (IsEmptyDir(i) <==> !HasNames(i));
    }
  }

  /** Then the path leads nowhere; exactly that name is gone, and exactly the inode it led to is unused. */
  lemma RemoveTakes(w: World, p: nat, path: string, x: nat, n: string)
    requires R.Good(w) && p < PROCS_MAX && w.procs[p] && IsPlace(w, p, path, x, n)
    requires Step(w, p, CRemove(path)).1 == Success
    ensures n in w.s1[x].names && w.s1[x].names[n] < |w.s1|
    ensures var v, c := Step(w, p, CRemove(path)).0, w.s1[x].names[n];
            && Shape(v) && v == w.(s1 := v.s1) && |v.s1| == |w.s1| && c != x && v.s1[c].Unused?
            && v.s1[x].Dir? && v.s1[x].names == w.s1[x].names - {n} && v.s1[x].size == w.s1[x].size
            && (forall i :: 0 <= i < |w.s1| && i != c && i != x ==> v.s1[i] == w.s1[i])
            && Goal(v, p, path, false) == None
  {
    hide Goal, Tokens, IsTree, R.Seated, BaseName;
    RemoveAnswers(w, p, path, x, n);
    GoalIsDir(w, p, path);
    assert n == BaseName(path) by { NameIs(w, p, path, x, n); }
    R.RemoveNames(w, p, path);
    var v := Step(w, p, CRemove(path)).0;
    assert CanRemove(w.s1, x, n);
    RemovedHas(w.s1, x, n, x, n);
    RemovedGoal(w, v, p, path, x, n);
  }

  lemma NameIs(w: World, p: nat, path: string, x: nat, n: string)
    requires Shape(w) && p < PROCS_MAX && IsPlace(w, p, path, x, n)
    ensures n == BaseName(path)
  {
  }

  lemma RemovedGoal(w: World, v: World, p: nat, path: string, x: nat, n: string)
    requires R.Good(w) && Shape(v) && p < PROCS_MAX && IsPlace(w, p, path, x, n) && CanRemove(w.s1, x, n)
    requires v.s0 == w.s0 && v.mount == w.mount && v.cwds == w.cwds && v.s1 == Removed(w.s1, x, n) && R.Trees(v)
    ensures Goal(v, p, path, false) == None
  {
    hide Tokens, M.Joined, IsTree, R.Seated, T.IsTree, Removed;
    var t, u, ts, y := TreeOf(w), TreeOf(v), Tokens(path), Start(w, p, path);
    RemovedGrows(w, v, x, n);
    R.TreeIsTree(v);
    var init, last := ts[..|ts| - 1], ts[|ts| - 1];
    assert ts == init + [last];
    T.WalkConcat(u, y, init, [last]);
    if T.Walk(u, y, init).Some? {
      T.WalkGrows(u, t, y, init);
      T.WalkOne(u, T.Node(1, x), last);
      M.JoinedIs(v.s0, v.s1, v.mount, T.Node(1, x));
      RemovedHas(w.s1, x, n, x, n);
      NameGone(w.s1, x, n);
    }
  }

  lemma NameGone(s: seq<Item>, x: nat, n: string)
    requires CanRemove(s, x, n) && s[x].names[n] != x
    ensures Removed(s, x, n)[x].Dir? && n !in Removed(s, x, n)[x].names
  {
  }

  /** What is left of the tree was there before. */
  lemma RemovedGrows(w: World, v: World, x: nat, n: string)
    requires CanRemove(w.s1, x, n) && v.s0 == w.s0 && v.mount == w.mount && v.s1 == Removed(w.s1, x, n)
    ensures T.Grows(TreeOf(v), TreeOf(w))
  {
    hide M.Joined;
    M.JoinedIs(w.s0, w.s1, w.mount, T.Root);
    M.JoinedIs(v.s0, v.s1, v.mount, T.Root);
    forall y <- TreeOf(v).dirs
      ensures y in TreeOf(w).dirs
      ensures forall k <- TreeOf(v).dirs[y] :: k in TreeOf(w).dirs[y] && TreeOf(w).dirs[y][k] == TreeOf(v).dirs[y][k]
    {
      M.JoinedIs(w.s0, w.s1, w.mount, y);
      M.JoinedIs(v.s0, v.s1, v.mount, y);
    }
  }
}
