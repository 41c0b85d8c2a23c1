/** The trees of both devices, joined at the mount point, are the tree that paths are walked on. */
module Mounts {
  import opened Paths
  import I = Items
  import T = Tree

  type Space = seq<I.Item>

  ghost function DirNodes(s: Space, dev: nat): set<T.Node> {
    set i | 0 <= i < |s| && s[i].Dir? :: T.Node(dev, i)
  }

  /** The directories of device 0 and device 1, the latter mounted on directory `m` of the former. */
  ghost function Joined(s0: Space, s1: Space, m: nat): T.Dirs {
    var nodes := DirNodes(s0, 0) + DirNodes(s1, 1);
    T.Dirs(map x | x in nodes :: if x.dev == 0 then s0[x.inum].names else s1[x.inum].names, T.Node(0, m))
  }

  /** The items of a device. */
  function Of(s0: Space, s1: Space, dev: nat): Space { if dev == 0 then s0 else s1 }

  lemma JoinedIs(s0: Space, s1: Space, m: nat, x: T.Node)
    ensures Joined(s0, s1, m).mount == T.Node(0, m)
    ensures var s := Of(s0, s1, x.dev);
            && (x in Joined(s0, s1, m).dirs <==> x.dev < 2 && x.inum < |s| && s[x.inum].Dir?)
            && (x in Joined(s0, s1, m).dirs ==> Joined(s0, s1, m).dirs[x] == s[x.inum].names)
  {
  }

  lemma IsTreeJoined(s0: Space, s1: Space, m: nat)
    requires I.IsTree(s0) && I.IsTree(s1) && 1 < m < |s0| && s0[m].Dir?
    ensures T.IsTree(Joined(s0, s1, m))
  {
    hide Joined, I.IsTree;
    RootIs(s0);
    RootIs(s1);
    var t := Joined(s0, s1, m);
    JoinedIs(s0, s1, m, T.Root);
    JoinedIs(s0, s1, m, T.ChildRoot);
    JoinedIs(s0, s1, m, T.Node(0, m));
    forall x <- t.dirs
      ensures "." in t.dirs[x] && t.dirs[x]["."] == x.inum && ".." in t.dirs[x] && T.ChildrenKnow(t, x)
    {
      JoinedIs(s0, s1, m, x);
      var s := Of(s0, s1, x.dev);
      DotsAt(s, x.inum);
      forall n <- t.dirs[x] | !IsDots(n)
        ensures t.dirs[x][n] != 1
        ensures var c := T.Node(x.dev, t.dirs[x][n]); c in t.dirs ==> ".." in t.dirs[c] && t.dirs[c][".."] == x.inum
      {
        ChildAt(s, x.inum, n);
        JoinedIs(s0, s1, m, T.Node(x.dev, t.dirs[x][n]));
      }
    }
  }

  lemma RootIs(s: Space)
    requires I.IsTree(s)
    ensures |s| > 1 && s[1].Dir? && ".." in s[1].names && s[1].names[".."] == 1
  {
  }

  lemma DotsAt(s: Space, x: nat)
    requires I.IsTree(s) && x < |s| && s[x].Dir?
    ensures "." in s[x].names && s[x].names["."] == x && ".." in s[x].names
  {
    assert I.HasDots(s, x);
  }

  lemma ChildAt(s: Space, x: nat, n: string)
    requires I.IsTree(s) && x < |s| && s[x].Dir? && n in s[x].names && !IsDots(n)
    ensures I.IsChild(s, x, s[x].names[n])
  {
    assert I.Has(s, x, n);
  }

  // ----- what the operations on device 1 do to it -----

  lemma JoinedExt(s0: Space, s1: Space, s1': Space, m: nat)
    requires |s1| == |s1'|
    requires forall i :: 0 <= i < |s1| ==> s1[i].Dir? == s1'[i].Dir? && (s1[i].Dir? ==> s1[i].names == s1'[i].names)
    ensures Joined(s0, s1', m) == Joined(s0, s1, m)
  {
    assert DirNodes(s1, 1) == DirNodes(s1', 1);
  }

  /** With a new file or directory the tree grows. */
  lemma AddedGrows(s0: Space, s1: Space, m: nat, x: nat, n: string, c: nat, item: I.Item)
    requires I.IsTree(s1) && I.CanAdd(s1, x, n, c, item)
    ensures T.Grows(Joined(s0, s1, m), Joined(s0, I.Added(s1, x, n, c, item), m))
  {
    hide Joined, I.IsTree;
    var s1' := I.Added(s1, x, n, c, item);
    var t, u := Joined(s0, s1, m), Joined(s0, s1', m);
    JoinedIs(s0, s1, m, T.Root);
    JoinedIs(s0, s1', m, T.Root);
    forall y <- t.dirs
      ensures y in u.dirs && forall k <- t.dirs[y] :: k in u.dirs[y] && u.dirs[y][k] == t.dirs[y][k]
    {
      JoinedIs(s0, s1, m, y);
      JoinedIs(s0, s1', m, y);
    }
  }

  /** With a removal the tree loses one entry, and the directory it led to, if it was one; that was empty. */
  lemma RemovedShrinks(s0: Space, s1: Space, m: nat, x: nat, n: string)
    requires I.IsTree(s1) && I.CanRemove(s1, x, n)
    ensures T.Shrinks(Joined(s0, s1, m), Joined(s0, I.Removed(s1, x, n), m), T.Node(1, x), n)
  {
    hide Joined, I.IsTree;
    I.RemovedHas(s1, x, n, x, n);
    var s1', c := I.Removed(s1, x, n), T.Node(1, s1[x].names[n]);
    var t, u := Joined(s0, s1, m), Joined(s0, s1', m);
    JoinedIs(s0, s1, m, T.Node(1, x));
    JoinedIs(s0, s1', m, T.Node(1, x));
    JoinedIs(s0, s1, m, c);
    JoinedIs(s0, s1', m, c);
    forall y <- t.dirs | y != c
      ensures y in u.dirs && u.dirs[y] == if y == T.Node(1, x) then t.dirs[y] - {n} else t.dirs[y]
    {
      JoinedIs(s0, s1, m, y);
      JoinedIs(s0, s1', m, y);
    }
  }
}
