/**
 The walk of a path over the directory tree of two devices, the second mounted on a directory of the first, and
 its agreement with the lexical path that `chdir` keeps beside the inode.
 */
module Tree {
  import opened Basics
  import opened Paths

  const NAME_LEN: nat := 29     // DIRSIZ - 1

  datatype Node = Node(dev: nat, inum: nat)

  /** The directories with their entries, and the directory on which device 1 is mounted. */
  datatype Dirs = Dirs(dirs: map<Node, map<string, nat>>, mount: Node)

  const Root: Node := Node(0, 1)
  const ChildRoot: Node := Node(1, 1)

  function Lookup(t: Dirs, x: Node, name: string): Option<Node> {
    if x in t.dirs && name in t.dirs[x] then Some(Node(x.dev, t.dirs[x][name])) else None
  }

  /** Entering the mount point leads to the root of the mounted device. */
  function Cross(t: Dirs, x: Node): Node { if x == t.mount then ChildRoot else x }

  /** The entry of a directory; ".." at the mounted root is looked up in the mount point. */
  function Entry(t: Dirs, x: Node, name: string): Option<Node> {
    var up := if name == ".." && x == ChildRoot then Lookup(t, t.mount, "..") else None;
    if up.Some? then up else Lookup(t, x, name)
  }

  /** One component of a walk. */
  function Step(t: Dirs, x: Node, comp: string): Option<Node> {
    if x !in t.dirs then None
    else
      var next := Entry(t, x, Cut(comp, NAME_LEN));
      if next.Some? then Some(Cross(t, next.value)) else None
  }

  function Walk(t: Dirs, x: Node, ts: seq<string>): Option<Node>
    decreases |ts|
  {
    if ts == [] then Some(x)
    else
      var y := Step(t, x, ts[0]);
      if y.Some? then Walk(t, y.value, ts[1..]) else None
  }

  /** Every entry of `x` other than the dots leads to a child whose ".." leads back. */
  ghost predicate ChildrenKnow(t: Dirs, x: Node)
    requires x in t.dirs
  {
    forall n <- t.dirs[x] :: !IsDots(n) ==>
      && t.dirs[x][n] != 1
      && var c := Node(x.dev, t.dirs[x][n]);
      && (c in t.dirs ==> ".." in t.dirs[c] && t.dirs[c][".."] == x.inum)
  }

  /** A tree on each device: "." is the directory itself, ".." its only parent, and a root is nobody's child. */
  ghost predicate IsTree(t: Dirs) {
    && Root in t.dirs && ChildRoot in t.dirs && t.mount in t.dirs && t.mount.dev == 0 && t.mount != Root
    && (forall x <- t.dirs :: "." in t.dirs[x] && t.dirs[x]["."] == x.inum && ".." in t.dirs[x] && ChildrenKnow(t, x))
    && t.dirs[Root][".."] == 1
  }

  // ----- walking up undoes walking down -----

  /** No walk ends at the mount point itself. */
  lemma {:induction false} WalkCrosses(t: Dirs, x: Node, ts: seq<string>)
    requires IsTree(t) && x != t.mount
    ensures Walk(t, x, ts).Some? ==> Walk(t, x, ts).value != t.mount
    decreases |ts|
  {
    if ts != [] && Step(t, x, ts[0]).Some? {
      WalkCrosses(t, Step(t, x, ts[0]).value, ts[1..]);
    }
  }

  lemma {:induction false} WalkConcat(t: Dirs, x: Node, a: seq<string>, b: seq<string>)
    ensures Walk(t, x, a + b) == (if Walk(t, x, a).Some? then Walk(t, Walk(t, x, a).value, b) else None)
    decreases |a|
  {
    if a == [] {
      assert a + b == b;
    } else {
      assert (a + b)[0] == a[0] && (a + b)[1..] == a[1..] + b;
      if Step(t, x, a[0]).Some? {
        WalkConcat(t, Step(t, x, a[0]).value, a[1..], b);
      }
    }
  }

  lemma WalkOne(t: Dirs, x: Node, c: string)
    ensures Walk(t, x, [c]) == Step(t, x, c)
  {
    assert [c][1..] == [];
  }

  /** From a directory reached by a proper name, ".." leads back, out of the mounted root too. */
  lemma UpUndoesDown(t: Dirs, y: Node, name: string, x: Node)
    requires IsTree(t) && y != t.mount && !IsDots(name) && Step(t, y, name) == Some(x) && x in t.dirs
    ensures Step(t, x, "..") == Some(y)
  {
    assert ChildrenKnow(t, y);
    assert !IsDots(Cut(name, NAME_LEN));
    var c := Lookup(t, y, Cut(name, NAME_LEN)).value;
    assert x == Cross(t, c);
  }

  predicate AllProper(st: seq<string>) { forall c <- st :: IsName(c) && !IsDots(c) }

  /** One more component: the walk from where a canonical path leads goes where the new canonical path leads. */
  lemma StepAgrees(t: Dirs, st: seq<string>, x: Node, c: string)
    requires IsTree(t) && AllProper(st) && IsName(c) && Walk(t, Root, st) == Some(x) && Step(t, x, c).Some?
    ensures AllProper(Apply(st, c)) && Walk(t, Root, Apply(st, c)) == Step(t, x, c)
  {
    WalkCrosses(t, Root, st);
    if c == "." {
    } else if c == ".." {
      if st != [] {
        var init, last := Pop(st), st[|st| - 1];
        assert st == init + [last];
        WalkConcat(t, Root, init, [last]);
        var y := Walk(t, Root, init).value;
        WalkOne(t, y, last);
        WalkCrosses(t, Root, init);
        UpUndoesDown(t, y, last, x);
      }
    } else {
      WalkConcat(t, Root, st, [c]);
      WalkOne(t, x, c);
    }
  }

  lemma {:induction false} WalkAgrees(t: Dirs, st: seq<string>, x: Node, ts: seq<string>)
    requires IsTree(t) && AllProper(st) && (forall c <- ts :: IsName(c))
    requires Walk(t, Root, st) == Some(x) && Walk(t, x, ts).Some?
    ensures AllProper(ApplyAll(st, ts)) && Walk(t, Root, ApplyAll(st, ts)) == Walk(t, x, ts)
    decreases |ts|
  {
    if ts != [] {
      StepAgrees(t, st, x, ts[0]);
      WalkAgrees(t, Apply(st, ts[0]), Step(t, x, ts[0]).value, ts[1..]);
    }
  }

  /** Components longer than an entry's name may be cut to any length an entry's name fits in. */
  lemma {:induction false} WalkCut(t: Dirs, x: Node, ts: seq<string>)
    ensures Walk(t, x, CutAll(ts)) == Walk(t, x, ts)
    decreases |ts|
  {
    if ts != [] {
      assert CutAll(ts)[1..] == CutAll(ts[1..]);
      assert Cut(Cut(ts[0], NAME_CAP), NAME_LEN) == Cut(ts[0], NAME_LEN);
      if Step(t, x, ts[0]).Some? {
        WalkCut(t, Step(t, x, ts[0]).value, ts[1..]);
      }
    }
  }

  // ----- chdir -----

  /** A process's current directory: the inode and the text kept beside it. */
  datatype Cwd = Cwd(node: Node, path: string)

  function Resolve(t: Dirs, cwd: Node, path: string): Option<Node> {
    Walk(t, if IsAbsolute(path) then Root else cwd, Tokens(path))
  }

  /** `chdir`: the walk decides; then the text is normalised. */
  function Chdir(t: Dirs, c: Cwd, path: string): Cwd {
    var y := Resolve(t, c.node, path);
    if y.Some? && y.value in t.dirs then Cwd(y.value, Cut(Normalize(c.path, path), BUF_CAP)) else c
  }

  /** The text is a normal form and leads from the root to the inode. */
  ghost predicate Agrees(t: Dirs, c: Cwd) {
    && IsAbsolute(c.path) && |c.path| <= BUF_CAP && IsStack(Tokens(c.path))
    && Walk(t, Root, Tokens(c.path)) == Some(c.node) && c.node in t.dirs
  }

  lemma ChdirAgrees(t: Dirs, c: Cwd, path: string)
    requires IsTree(t) && Agrees(t, c) && WithinCaps(c.path, path)
    ensures Agrees(t, Chdir(t, c, path))
  {
    var y := Resolve(t, c.node, path);
    if y.Some? && y.value in t.dirs {
      NormalForm(c.path, path);
      Canonical(c.path, path);
      ScanNames(path, "");
      PushProper([], Tokens(c.path));
      assert [] + Tokens(c.path) == Tokens(c.path);
      var st := if IsAbsolute(path) then [] else Tokens(c.path);
      WalkAgrees(t, st, if IsAbsolute(path) then Root else c.node, Tokens(path));
      WalkCut(t, Root, CanonicalPath(c.path, path));
    }
  }

  // ----- runs -----

  /** Directories and entries are only added. */
  ghost predicate Grows(t: Dirs, u: Dirs) {
    && t.mount == u.mount
    && forall x <- t.dirs :: x in u.dirs && forall n <- t.dirs[x] :: n in u.dirs[x] && u.dirs[x][n] == t.dirs[x][n]
  }

  lemma {:induction false} WalkGrows(t: Dirs, u: Dirs, x: Node, ts: seq<string>)
    requires IsTree(t) && Grows(t, u) && Walk(t, x, ts).Some?
    ensures Walk(u, x, ts) == Walk(t, x, ts)
    decreases |ts|
  {
    if ts != [] {
      assert Step(u, x, ts[0]) == Step(t, x, ts[0]);
      WalkGrows(t, u, Step(t, x, ts[0]).value, ts[1..]);
    }
  }

  /** The entry `n` of `x` is gone, and the directory that it led to, if it was one; that was empty. */
  ghost predicate Shrinks(t: Dirs, u: Dirs, x: Node, n: string) {
    && t.mount == u.mount && x in t.dirs && n in t.dirs[x] && !IsDots(n)
    && var c := Node(x.dev, t.dirs[x][n]);
    && c != t.mount && c !in u.dirs && (c in t.dirs ==> forall k <- t.dirs[c] :: IsDots(k))
    && forall y <- t.dirs :: y != c ==> y in u.dirs && u.dirs[y] == if y == x then t.dirs[y] - {n} else t.dirs[y]
  }

  /** A walk down proper names that does not end at what was removed does not pass there. */
  lemma {:induction false} WalkShrinks(t: Dirs, u: Dirs, x: Node, n: string, y: Node, ts: seq<string>)
    requires Shrinks(t, u, x, n) && AllProper(ts)
    requires Walk(t, y, ts).Some? && Walk(t, y, ts).value != Node(x.dev, t.dirs[x][n])
    ensures Walk(u, y, ts) == Walk(t, y, ts)
    decreases |ts|
  {
    if ts != [] {
      var c, name := Node(x.dev, t.dirs[x][n]), Cut(ts[0], NAME_LEN);
      assert IsName(ts[0]) && !IsDots(name);
      assert y in t.dirs && y != c;
      var z := Step(t, y, ts[0]).value;
      if y == x && name == n {
        assert z == c;
        assert ts[1..] != [] && IsName(ts[1..][0]) && !IsDots(ts[1..][0]);
        assert Step(t, c, ts[1..][0]).Some?;
      }
      WalkShrinks(t, u, x, n, z, ts[1..]);
    }
  }

  // ----- beyond the limit -----

  /** Nothing reached by a proper name is where it was reached from. */
  lemma {:induction false} NoSelfLoop(t: Dirs, st: seq<string>, y: Node, name: string)
    requires IsTree(t) && AllProper(st) && Walk(t, Root, st) == Some(y) && y in t.dirs && !IsDots(name)
    ensures Step(t, y, name) != Some(y)
    decreases |st|
  {
    if Step(t, y, name) == Some(y) {
      WalkCrosses(t, Root, st);
      UpUndoesDown(t, y, name, y);
      if st != [] {
        var init, last := Pop(st), st[|st| - 1];
        assert st == init + [last];
        WalkConcat(t, Root, init, [last]);
        var z := Walk(t, Root, init).value;
        WalkOne(t, z, last);
        WalkCrosses(t, Root, init);
        UpUndoesDown(t, z, last, y);
        assert z == y;
        NoSelfLoop(t, init, z, last);
      }
    }
  }

  /** At depth 32, entering a subdirectory always leaves the text behind: it still names the parent. */
  lemma TooDeep(t: Dirs, c: Cwd, name: string)
    requires IsTree(t) && Agrees(t, c) && |Tokens(c.path)| == MAX_DEPTH && IsProper(name)
    requires |c.path| + 1 + |name| <= BUF_CAP
    requires var y := Resolve(t, c.node, name); y.Some? && y.value in t.dirs
    ensures Tokens(Chdir(t, c, name).path) == Tokens(c.path)
    ensures !Agrees(t, Chdir(t, c, name))
  {
    var st := Tokens(c.path);
    JoinTokens(c.path, name);
    NormalForm(c.path, name);
    ScanWord(name, "", "");
    assert name + "" == name && "" + name == name;
    assert Tokens(name) == [name];
    PushProper([], st);
    assert [] + st == st;
    PushConcat([], st, [name]);
    assert PushAll(st, [name]) == st by { assert [name][1..] == []; }
    WalkOne(t, c.node, name);
    NoSelfLoop(t, st, c.node, name);
  }

  lemma {:induction false} PushConcat(st: seq<string>, a: seq<string>, b: seq<string>)
    ensures PushAll(st, a + b) == PushAll(PushAll(st, a), b)
    decreases |a|
  {
    if a == [] {
      assert a + b == b;
    } else {
      assert (a + b)[0] == a[0] && (a + b)[1..] == a[1..] + b;
      PushConcat(Push(st, a[0]), a[1..], b);
    }
  }

  // ----- the parent directory of a path -----

  /** The directory in which the last component of a path is to be looked up. */
  function ParentDir(t: Dirs, x: Node, ts: seq<string>): Option<Node> {
    if ts == [] then None
    else
      var y := Walk(t, x, ts[..|ts| - 1]);
      if y.Some? && y.value in t.dirs then y else None
  }

  /** What a walk is asked for: the inode, or the directory that its last component is to be looked up in. */
  function Target(t: Dirs, x: Node, ts: seq<string>, parent: bool): Option<Node> {
    if parent then ParentDir(t, x, ts) else Walk(t, x, ts)
  }

  lemma StepCut(t: Dirs, x: Node, comp: string)
    ensures Step(t, x, Cut(comp, NAME_LEN)) == Step(t, x, comp)
  {
  }

  lemma TargetNone(t: Dirs, x: Node, parent: bool)
    ensures Target(t, x, [], parent) == if parent then None else Some(x)
  {
  }

  function Last(ts: seq<string>): string
    requires ts != []
  {
    ts[|ts| - 1]
  }

  /** One component of it. */
  lemma TargetStep(t: Dirs, x: Node, comp: string, rest: seq<string>, parent: bool)
    ensures Target(t, x, [comp] + rest, parent) ==
            if x !in t.dirs then None
            else if parent && rest == [] then Some(x)
            else if Step(t, x, comp).Some? then Target(t, Step(t, x, comp).value, rest, parent)
            else None
  {
    var ts := [comp] + rest;
    assert ts[1..] == rest;
    if rest == [] {
      assert ts[..|ts| - 1] == [];
    } else {
      assert ts[..|ts| - 1] == [comp] + rest[..|rest| - 1];
      assert ([comp] + rest[..|rest| - 1])[1..] == rest[..|rest| - 1];
    }
  }
}
