/**
 The inodes of a device as items: unused, a file's bytes, or a directory's names. The names form a tree: every
 directory holds "." and "..", the dots lead where they should, every inode in use but the root is reached by
 exactly one name, and from every directory the chain of ".." ends at the root.
 */
module Items {
  import opened Basics
  import opened Codec
  import opened Paths

  /** A directory's size is that of its file, which may have free entries besides those of its names. */
  datatype Item = Unused | File(bytes: seq<byte>) | Dir(names: map<string, nat>, size: nat)

  /** `n` is an entry of directory `x` other than the dots. */
  predicate Has(s: seq<Item>, x: nat, n: string) {
    x < |s| && s[x].Dir? && n in s[x].names && !IsDots(n)
  }

  predicate HasDots(s: seq<Item>, x: nat)
    requires x < |s| && s[x].Dir?
  {
    "." in s[x].names && s[x].names["."] == x && ".." in s[x].names && 0 < s[x].names[".."] < |s|
  }

  /** `c` is in use, is not the root, and leads back to `x` if it is a directory. */
  predicate IsChild(s: seq<Item>, x: nat, c: nat) {
    1 < c < |s| && !s[c].Unused? && (s[c].Dir? ==> ".." in s[c].names && s[c].names[".."] == x)
  }

  /** Some entry of `y` leads to `x`. */
  ghost predicate LeadsTo(s: seq<Item>, y: nat, x: nat) {
    exists n :: Has(s, y, n) && s[y].names[n] == x
  }

  ghost predicate IsNamed(s: seq<Item>, x: nat) {
    exists y: nat :: LeadsTo(s, y, x)
  }

  /** After `k` steps of ".." from directory `x` comes the root. */
  ghost predicate Climbs(s: seq<Item>, x: nat, k: nat)
    decreases k
  {
    if k == 0 then x == 1
    else x != 1 && x < |s| && s[x].Dir? && ".." in s[x].names && Climbs(s, s[x].names[".."], k - 1)
  }

  ghost predicate IsRooted(s: seq<Item>, x: nat) {
    exists k: nat :: Climbs(s, x, k)
  }

  /** The entries are in order: dots, and children that know their parent and have no other name. */
  ghost predicate IsLinked(s: seq<Item>) {
    && (forall x :: 0 <= x < |s| && s[x].Dir? ==> HasDots(s, x))
    && (forall x: nat, n {:trigger Has(s, x, n)} :: Has(s, x, n) ==> IsChild(s, x, s[x].names[n]))
    && (forall x: nat, n, y: nat, m {:trigger Has(s, x, n), Has(s, y, m)} ::
          Has(s, x, n) && Has(s, y, m) && s[x].names[n] == s[y].names[m] ==> x == y && n == m)
  }

  ghost predicate IsTree(s: seq<Item>) {
    && |s| > 1 && s[0].Unused? && s[1].Dir? && ".." in s[1].names && s[1].names[".."] == 1
    && IsLinked(s)
    && (forall x {:trigger IsNamed(s, x)} :: 1 < x < |s| && !s[x].Unused? ==> IsNamed(s, x))
    && (forall x {:trigger IsRooted(s, x)} :: 0 <= x < |s| && s[x].Dir? ==> IsRooted(s, x))
  }

  // ----- what the operations do -----

  /** One more name takes a free entry if there is one. */
  function Linked(s: seq<Item>, x: nat, n: string, c: nat): (t: seq<Item>)
    requires x < |s| && s[x].Dir?
    ensures |t| == |s|
  {
    var m: map<string, nat> := s[x].names[n := c];
    s[x := Dir(m, if 32 * |s[x].names| == s[x].size then s[x].size + 32 else s[x].size)]
  }

  function Unlinked(s: seq<Item>, x: nat, n: string): (t: seq<Item>)
    requires x < |s| && s[x].Dir?
    ensures |t| == |s|
  {
    s[x := Dir(s[x].names - {n}, s[x].size)]
  }

  /** What the new directory `c` in `x` holds. */
  function Dots(c: nat, x: nat): Item {
    Dir(map["." := c, ".." := x], 64)
  }

  /** A new inode `c` under the new name `n` in `x`. */
  function Added(s: seq<Item>, x: nat, n: string, c: nat, item: Item): (t: seq<Item>)
    requires x < |s| && s[x].Dir? && c < |s| && c != x
    ensures |t| == |s|
  {
    Linked(s[c := item], x, n, c)
  }

  /** The name `n` of `x` and the inode it leads to go. */
  function Removed(s: seq<Item>, x: nat, n: string): (t: seq<Item>)
    requires x < |s| && s[x].Dir? && n in s[x].names
    ensures |t| == |s|
  {
    if s[x].names[n] < |s| then Unlinked(s, x, n)[s[x].names[n] := Unused] else Unlinked(s, x, n)
  }

  predicate IsEmptyDir(i: Item) { i.Dir? && i.names.Keys <= {".", ".."} }

  // ----- small facts -----

  lemma NamedBy(s: seq<Item>, y: nat, n: string)
    requires Has(s, y, n)
    ensures IsNamed(s, s[y].names[n])
  {
    assert LeadsTo(s, y, s[y].names[n]);
  }

  lemma NameOf(s: seq<Item>, x: nat) returns (y: nat, n: string)
    requires IsNamed(s, x)
    ensures Has(s, y, n) && s[y].names[n] == x
  {
    y :| LeadsTo(s, y, x);
    n :| Has(s, y, n) && s[y].names[n] == x;
  }

  /** A directory other than the root is an entry of the directory that its ".." names. */
  lemma Hangs(s: seq<Item>, x: nat) returns (n: string)
    requires IsTree(s) && 1 < x < |s| && s[x].Dir?
    ensures ".." in s[x].names && Has(s, s[x].names[".."], n) && s[s[x].names[".."]].names[n] == x
  {
    assert IsNamed(s, x);
    var y;
    y, n := NameOf(s, x);
    assert IsChild(s, y, x);
  }

  /** The chain of ".." stays if it does not pass through `c` and the others keep their "..". */
  lemma {:induction false} ClimbStays(s: seq<Item>, t: seq<Item>, c: nat, x: nat, k: nat)
    requires |s| == |t| && Climbs(s, x, k) && x != c
    requires forall y :: 0 <= y < |s| && s[y].Dir? && y != c && y != 1 ==>
               && t[y].Dir? && (".." in s[y].names ==> ".." in t[y].names && t[y].names[".."] == s[y].names[".."] != c)
    ensures Climbs(t, x, k)
    decreases k
  {
    if k > 0 {
      ClimbStays(s, t, c, s[x].names[".."], k - 1);
    }
  }

  lemma RootedStays(s: seq<Item>, t: seq<Item>, c: nat, x: nat)
    requires |s| == |t| && IsRooted(s, x) && x != c
    requires forall y :: 0 <= y < |s| && s[y].Dir? && y != c && y != 1 ==>
               && t[y].Dir? && (".." in s[y].names ==> ".." in t[y].names && t[y].names[".."] == s[y].names[".."] != c)
    ensures IsRooted(t, x)
  {
    var k: nat :| Climbs(s, x, k);
    ClimbStays(s, t, c, x, k);
  }

  /** One more step. */
  lemma RootedBelow(s: seq<Item>, x: nat)
    requires 1 < x < |s| && s[x].Dir? && ".." in s[x].names && IsRooted(s, s[x].names[".."])
    ensures IsRooted(s, x)
  {
    var k: nat :| Climbs(s, s[x].names[".."], k);
    assert Climbs(s, x, k + 1);
  }

  // ----- adding -----

  /** What can be added: a file, or a directory with its dots. */
  predicate IsNew(item: Item, c: nat, x: nat) { item.File? || item == Dots(c, x) }

  predicate CanAdd(s: seq<Item>, x: nat, n: string, c: nat, item: Item) {
    && 1 < c < |s| && s[c].Unused? && x < |s| && s[x].Dir? && n !in s[x].names && IsNew(item, c, x)
  }

  lemma AddedHas(s: seq<Item>, x: nat, n: string, c: nat, item: Item, y: nat, k: string)
    requires IsTree(s) && CanAdd(s, x, n, c, item)
    ensures var t := Added(s, x, n, c, item);
            && (Has(t, y, k) <==> Has(s, y, k) || (y == x && k == n))
            && (Has(t, y, k) ==> t[y].names[k] == if y == x && k == n then c else s[y].names[k])
            && (Has(s, y, k) ==> s[y].names[k] != c)
  {
    assert HasDots(s, x);
  }

  lemma AddedLinked(s: seq<Item>, x: nat, n: string, c: nat, item: Item)
    requires IsTree(s) && CanAdd(s, x, n, c, item)
    ensures IsLinked(Added(s, x, n, c, item))
  {
    var t := Added(s, x, n, c, item);
    assert HasDots(s, x);
    forall y: nat, k | Has(t, y, k)
      ensures IsChild(t, y, t[y].names[k])
    {
      AddedHas(s, x, n, c, item, y, k);
      if !(y == x && k == n) {
        assert IsChild(s, y, s[y].names[k]);
      }
    }
    forall y: nat, k, z: nat, m | Has(t, y, k) && Has(t, z, m) && t[y].names[k] == t[z].names[m]
      ensures y == z && k == m
    {
      AddedHas(s, x, n, c, item, y, k);
      AddedHas(s, x, n, c, item, z, m);
    }
    forall y | 0 <= y < |t| && t[y].Dir?
      ensures HasDots(t, y)
    {
      assert y != c ==> HasDots(s, y);
    }
  }

  /** Making a file or a directory under a new name keeps the tree. */
  lemma AddedTree(s: seq<Item>, x: nat, n: string, c: nat, item: Item)
    requires IsTree(s) && CanAdd(s, x, n, c, item)
    ensures IsTree(Added(s, x, n, c, item))
  {
    var t := Added(s, x, n, c, item);
    AddedLinked(s, x, n, c, item);
    assert HasDots(s, x) && HasDots(s, 1);
    hide IsLinked;
    forall y | 1 < y < |t| && !t[y].Unused?
      ensures IsNamed(t, y)
    {
      if y == c {
        AddedHas(s, x, n, c, item, x, n);
        NamedBy(t, x, n);
      } else {
        assert IsNamed(s, y);
        var z, k := NameOf(s, y);
        AddedHas(s, x, n, c, item, z, k);
        NamedBy(t, z, k);
      }
    }
    forall y | 0 <= y < |t| && t[y].Dir?
      ensures IsRooted(t, y)
    {
      AddedRooted(s, x, n, c, item, y);
    }
  }

  lemma AddedRooted(s: seq<Item>, x: nat, n: string, c: nat, item: Item, y: nat)
    requires IsTree(s) && CanAdd(s, x, n, c, item) && y < |s| && Added(s, x, n, c, item)[y].Dir?
    ensures IsRooted(Added(s, x, n, c, item), y)
  {
    var t := Added(s, x, n, c, item);
    forall z | 0 <= z < |s| && s[z].Dir? && z != 1
      ensures z != c && HasDots(s, z) && s[z].names[".."] != c && t[z].Dir? && ".." in t[z].names
      ensures t[z].names[".."] == s[z].names[".."]
    {
      assert HasDots(s, z);
      var k := Hangs(s, z);
    }
    if y == c {
      assert IsRooted(s, x);
      RootedStays(s, t, c, x);
      RootedBelow(t, c);
    } else {
      assert IsRooted(s, y);
      RootedStays(s, t, c, y);
    }
  }

  // ----- removing -----

  /** An ordinary name of a file, or of an empty directory. */
  predicate CanRemove(s: seq<Item>, x: nat, n: string) {
    Has(s, x, n) && s[x].names[n] < |s| && (s[s[x].names[n]].Dir? ==> IsEmptyDir(s[s[x].names[n]]))
  }

  lemma RemovedHas(s: seq<Item>, x: nat, n: string, y: nat, k: string)
    requires IsTree(s) && CanRemove(s, x, n)
    ensures s[x].names[n] != x
    ensures var t := Removed(s, x, n);
            && (Has(t, y, k) <==> Has(s, y, k) && !(y == x && k == n))
            && (Has(t, y, k) ==> t[y].names[k] == s[y].names[k] != s[x].names[n])
  {
    var c := s[x].names[n];
    assert IsChild(s, x, c);
    assert !Has(s, c, k);
  }

  lemma RemovedLinked(s: seq<Item>, x: nat, n: string)
    requires IsTree(s) && CanRemove(s, x, n)
    ensures IsLinked(Removed(s, x, n))
  {
    var t, c := Removed(s, x, n), s[x].names[n];
    RemovedHas(s, x, n, x, n);
    forall y: nat, k | Has(t, y, k)
      ensures IsChild(t, y, t[y].names[k])
    {
      RemovedHas(s, x, n, y, k);
      assert IsChild(s, y, s[y].names[k]);
    }
    forall y: nat, k, z: nat, m | Has(t, y, k) && Has(t, z, m) && t[y].names[k] == t[z].names[m]
      ensures y == z && k == m
    {
      RemovedHas(s, x, n, y, k);
      RemovedHas(s, x, n, z, m);
    }
    forall y | 0 <= y < |t| && t[y].Dir?
      ensures HasDots(t, y)
    {
      assert HasDots(s, y);
    }
  }

  /** Removing an ordinary name, and the inode it leads to, keeps the tree. */
  lemma RemovedTree(s: seq<Item>, x: nat, n: string)
    requires IsTree(s) && CanRemove(s, x, n)
    ensures IsTree(Removed(s, x, n))
  {
    var t, c := Removed(s, x, n), s[x].names[n];
    RemovedLinked(s, x, n);
    RemovedHas(s, x, n, x, n);
    assert IsChild(s, x, c) && HasDots(s, 1);
    hide IsLinked;
    forall y | 1 < y < |t| && !t[y].Unused?
      ensures IsNamed(t, y)
    {
      assert y != c && IsNamed(s, y);
      var z, k := NameOf(s, y);
      RemovedHas(s, x, n, z, k);
      NamedBy(t, z, k);
    }
    forall y | 0 <= y < |t| && t[y].Dir?
      ensures IsRooted(t, y)
    {
      RemovedRooted(s, x, n, y);
    }
  }

  lemma RemovedRooted(s: seq<Item>, x: nat, n: string, y: nat)
    requires IsTree(s) && CanRemove(s, x, n) && y < |s| && Removed(s, x, n)[y].Dir?
    ensures IsRooted(Removed(s, x, n), y)
  {
    var t, c := Removed(s, x, n), s[x].names[n];
    RemovedHas(s, x, n, x, n);
    forall z | 0 <= z < |s| && s[z].Dir? && z != c && z != 1
      ensures t[z].Dir? && ".." in t[z].names && t[z].names[".."] == s[z].names[".."] != c
    {
      assert HasDots(s, z);
      var k := Hangs(s, z);
      assert !Has(s, c, k);
    }
    assert IsRooted(s, y);
    RootedStays(s, t, c, y);
  }

  /**
   `fs_rm` does not look at the name. What it lets through keeps the tree exactly if the name is ordinary: "."
   always gets through in an empty directory, and ".." in an empty root.
   */
  lemma RemoveIff(s: seq<Item>, x: nat, n: string)
    requires IsTree(s) && x < |s| && s[x].Dir? && n in s[x].names && s[x].names[n] < |s|
    requires s[s[x].names[n]].Dir? ==> IsEmptyDir(s[s[x].names[n]])
    ensures IsTree(Removed(s, x, n)) <==> !IsDots(n)
  {
    if !IsDots(n) {
      RemovedTree(s, x, n);
    } else {
      var t, c := Removed(s, x, n), s[x].names[n];
      assert HasDots(s, x);
      if c != 1 {
        DotsTarget(s, x, n);
        var k := Hangs(s, c);
        var y := s[c].names[".."];
        assert y != c;
        assert Has(t, y, k) && !IsChild(t, y, c);
      }
    }
  }

  /** The dots lead to directories; ".." of an ordinary directory leads to one that is not empty. */
  lemma DotsTarget(s: seq<Item>, x: nat, n: string)
    requires IsTree(s) && x < |s| && s[x].Dir? && IsDots(n) && n in s[x].names && s[x].names[n] < |s|
    requires s[x].names[n] != 1
    requires s[s[x].names[n]].Dir? ==> IsEmptyDir(s[s[x].names[n]])
    ensures s[x].names[n] == x && 1 < x
  {
    assert HasDots(s, x);
    if n == ".." && x != 1 {
      var k := Hangs(s, x);
      assert false;
    }
  }

  /** Removing what was just added leaves everything as it was, but for a free entry more. */
  lemma RemoveUndoesAdd(s: seq<Item>, x: nat, n: string, c: nat, item: Item)
    requires IsTree(s) && CanAdd(s, x, n, c, item)
    ensures var t := Added(s, x, n, c, item);
            CanRemove(t, x, n) && Removed(t, x, n) == s[x := Dir(s[x].names, t[x].size)]
  {
    var t := Added(s, x, n, c, item);
    AddedHas(s, x, n, c, item, x, n);
    assert t[x].names - {n} == s[x].names;
    assert Removed(t, x, n) == s[x := Dir(s[x].names, t[x].size)];
  }

  // ----- writing -----

  /** Same kinds, same names. */
  ghost predicate SameEntries(s: seq<Item>, t: seq<Item>) {
    && |s| == |t|
    && forall y {:trigger s[y]} {:trigger t[y]} :: 0 <= y < |s| ==>
         s[y].Unused? == t[y].Unused? && s[y].Dir? == t[y].Dir? && (s[y].Dir? ==> s[y].names == t[y].names)
  }

  /** Neither the bytes of files nor the lengths of directories matter. */
  lemma SameEntriesTree(s: seq<Item>, t: seq<Item>)
    requires IsTree(s) && SameEntries(s, t)
    ensures IsTree(t)
  {
    forall y: nat, n | Has(t, y, n)
      ensures Has(s, y, n) && t[y].names[n] == s[y].names[n] && IsChild(t, y, t[y].names[n])
    {
      assert Has(s, y, n);
    }
    forall y | 1 < y < |t| && !t[y].Unused?
      ensures IsNamed(t, y)
    {
      assert IsNamed(s, y);
      var z, k := NameOf(s, y);
      assert Has(t, z, k);
      NamedBy(t, z, k);
    }
    forall y | 0 <= y < |t| && t[y].Dir?
      ensures HasDots(t, y) && IsRooted(t, y)
    {
      assert HasDots(s, y) && IsRooted(s, y);
      SameRooted(s, t, y);
    }
  }

  lemma SameRooted(s: seq<Item>, t: seq<Item>, y: nat)
    requires IsTree(s) && SameEntries(s, t) && y < |s| && IsRooted(s, y)
    ensures IsRooted(t, y)
  {
    forall z | 0 <= z < |s| && s[z].Dir? && z != 1
      ensures HasDots(s, z) && s[z].names[".."] != |s|
    {
      assert HasDots(s, z);
      var k := Hangs(s, z);
    }
    RootedStays(s, t, |s|, y);
  }

  lemma FileTree(s: seq<Item>, x: nat, i: Item)
    requires IsTree(s) && x < |s| && s[x].File? && i.File?
    ensures IsTree(s[x := i])
  {
    SameEntriesTree(s, s[x := i]);
  }

  /** A directory that loses entries, whatever its length, leaves a tree exactly if it loses none. */
  lemma FewerNamesIff(s: seq<Item>, x: nat, m: map<string, nat>, size: nat)
    requires IsTree(s) && x < |s| && s[x].Dir? && m.Keys <= s[x].names.Keys && forall n <- m :: m[n] == s[x].names[n]
    ensures IsTree(s[x := Dir(m, size)]) <==> m == s[x].names
  {
    var t := s[x := Dir(m, size)];
    if m == s[x].names {
      SameEntriesTree(s, t);
    } else {
      var n :| n in s[x].names && n !in m;
      if Has(s, x, n) {
        var c := s[x].names[n];
        assert IsChild(s, x, c);
        forall y: nat, k | Has(t, y, k)
          ensures t[y].names[k] != c
        {
          assert Has(s, y, k);
        }
        assert !IsNamed(t, c);
      } else {
        assert !HasDots(t, x);
      }
    }
  }

  // ----- looking up -----

  lemma DirNotZero(s: seq<Item>, x: nat)
    requires IsTree(s) && x < |s| && s[x].Dir?
    ensures 0 < x
  {
  }

  /** The first unused inode from number `i` on. */
  function FirstUnused(s: seq<Item>, i: nat): (c: Option<nat>)
    ensures c.Some? ==> i <= c.value < |s| && s[c.value].Unused? && forall j :: i <= j < c.value ==> !s[j].Unused?
    ensures c.None? ==> forall j :: i <= j < |s| ==> !s[j].Unused?
  {
    First(s, (x: Item) => x.Unused?, i)
  }

  lemma FirstIs(s: seq<Item>, i: nat, c: nat)
    requires i <= c < |s| && s[c].Unused? && forall j :: i <= j < c ==> !s[j].Unused?
    ensures FirstUnused(s, i) == Some(c)
  {
  }

  /** Every entry, the dots too, leads to an inode in use. */
  lemma EntryInUse(s: seq<Item>, x: nat, n: string)
    requires IsTree(s) && x < |s| && s[x].Dir? && n in s[x].names
    ensures s[x].names[n] < |s| && !s[s[x].names[n]].Unused?
  {
    assert HasDots(s, x);
    if !IsDots(n) {
      assert Has(s, x, n);
    } else if n == ".." && x != 1 {
      var k := Hangs(s, x);
    }
  }
}
